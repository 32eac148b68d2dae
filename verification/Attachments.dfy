module Attachments {
  /** Uploading attachments into two stores, objects and rows, that may each fail; and reading them back. */

  import opened Common

  type Bytes = seq<bv8>

  // ---- inputs

  datatype Mode = Disabled | TrustedTypes | ScannerRequired | UnknownMode

  datatype Scanner = NoScanner | NoopScanner | RealScanner

  /** The record the attachment is for, as the registry resolves it. */
  datatype Reference = Missing | Archived | Active

  datatype Context = Context(
    mayWrite: bool, mode: Mode, actorTenant: string, tenant: string, tenantIsCanonical: bool,
    scanner: Scanner, reference: Reference, workspace: string, entityId: string)

  datatype Upload = Upload(filename: string, contentType: string, encoded: string)

  /** Base64 decoding, UTF-8 validity and SHA-256. */
  datatype Codec = Codec(decode: string -> Option<Bytes>, isUtf8: Bytes -> bool, hash: Bytes -> string)

  /** What the scanner does: returns True, returns False, returns something else, or raises. */
  datatype Scan = Accepts | Rejects | NotBoolean | ScanRaises

  /** What a put does: stores and reports it, raises without or after storing, or stores and misreports. */
  datatype Put = Stored | RaisesEmpty | RaisesStored | Misreports

  /** What the collaborators do during one upload. */
  datatype Faults = Faults(scan: Scan, put: Put, deleteRaises: bool, flushRaises: bool)

  datatype Error =
    | Forbidden | PolicyInvalid | TenantForbidden | StorageConfiguration | AttachmentsDisabled | ScannerUnavailable
    | NotFound | ArchivedReadonly | UnsafeFilename | UnsafeFileType | InvalidFile | FileTooLarge | MalwareRejected
    | StorageUnavailable | FlushFailed | StorageIntegrity

  // ---- stores

  datatype Object = Object(content: Bytes, contentType: string)

  datatype Row = Row(
    id: string, workspace: string, entityId: string, filename: string, contentType: string, size: nat,
    sha256: string, content: Bytes, objectKey: string)

  /** What happened, in order. */
  datatype Event = Scanned(id: string, verdict: Scan) | PutCalled(id: string) | DeleteCalled(id: string) | Flushed(id: string)

  datatype Stores = Stores(objects: map<(string, string), Object>, rows: map<string, Row>, trace: seq<Event>)

  datatype Reply = Uploaded(row: Row) | Failed(error: Error)

  // ---- the checks before anything is stored

  datatype Media = Plain | Png | Jpeg | Pdf

  /** The accepted content types. */
  function MediaOf(contentType: string): Option<Media> {
    if contentType == "text/plain" then Some(Plain)
    else if contentType == "image/png" then Some(Png)
    else if contentType == "image/jpeg" then Some(Jpeg)
    else if contentType == "application/pdf" then Some(Pdf)
    else None
  }

  function Magic(media: Media): Bytes {
    match media
    case Plain => []
    case Png => [0x89, 0x50, 0x4E, 0x47, 0x0D, 0x0A, 0x1A, 0x0A]
    case Jpeg => [0xFF, 0xD8, 0xFF]
    case Pdf => [0x25, 0x50, 0x44, 0x46, 0x2D]
  }

  predicate UnsafeName(name: string) {
    (exists i | 0 <= i < |name| :: name[i] == '/' || name[i] == '\\' || name[i] < ' ') || name == "." || name == ".."
  }

  predicate MatchesMedia(codec: Codec, media: Media, content: Bytes) {
    if media == Plain then codec.isUtf8(content) else Magic(media) <= content
  }

  const MAX_SIZE := 1_000_000

  /** The policy checks, in the order they are made; None when the upload may go on. */
  function PolicyError(c: Context): Option<Error> {
    if !c.mayWrite then Some(Forbidden)
    else if c.mode == UnknownMode then Some(PolicyInvalid)
    else if c.tenant != c.actorTenant then Some(TenantForbidden)
    else if !c.tenantIsCanonical then Some(StorageConfiguration)
    else if c.mode == Disabled then Some(AttachmentsDisabled)
    else if c.mode == ScannerRequired && c.scanner != RealScanner then Some(ScannerUnavailable)
    else if c.reference == Missing then Some(NotFound)
    else if c.reference == Archived then Some(ArchivedReadonly)
    else None
  }

  /** The decoded content, or why the file is refused. */
  function Inspect(codec: Codec, u: Upload): (r: (Bytes, Option<Error>))
    ensures r.1.None? ==> codec.decode(u.encoded) == Some(r.0) && 0 < |r.0| <= MAX_SIZE
  {
    if UnsafeName(u.filename) then ([], Some(UnsafeFilename))
    else
      match MediaOf(u.contentType)
      case None => ([], Some(UnsafeFileType))
      case Some(media) =>
        match codec.decode(u.encoded)
        case None => ([], Some(InvalidFile))
        case Some(content) =>
          if !(0 < |content| <= MAX_SIZE) then ([], Some(FileTooLarge))
          else if !MatchesMedia(codec, media, content) then ([], Some(InvalidFile))
          else (content, None)
  }

  function ScanError(scan: Scan): Option<Error> {
    match scan
    case Accepts => None
    case Rejects => Some(MalwareRejected)
    case NotBoolean => Some(ScannerUnavailable)
    case ScanRaises => Some(ScannerUnavailable)
  }

  // ---- storing

  function KeyOf(id: string, u: Upload): string {
    "attachments/" + id + "/" + u.filename
  }

  function RowOf(codec: Codec, c: Context, u: Upload, id: string, content: Bytes): Row {
    Row(id, c.workspace, c.entityId, u.filename, u.contentType, |content|, codec.hash(content), [], KeyOf(id, u))
  }

  function Record(s: Stores, e: Event): Stores {
    s.(trace := s.trace + [e])
  }

  function PutObject(s: Stores, place: (string, string), o: Object, id: string, put: Put): Stores {
    var called := Record(s, PutCalled(id));
    if put == RaisesEmpty then called else called.(objects := s.objects[place := o])
  }

  /** The compensating delete; a failing one has no effect and is swallowed. */
  function DeleteObject(s: Stores, place: (string, string), id: string, raises: bool): Stores {
    var called := Record(s, DeleteCalled(id));
    if raises then called else called.(objects := s.objects - {place})
  }

  function Store(codec: Codec, s: Stores, c: Context, u: Upload, id: string, content: Bytes, f: Faults): (Stores, Reply) {
    var place, row := (c.tenant, KeyOf(id, u)), RowOf(codec, c, u, id, content);
    var put := PutObject(s, place, Object(content, u.contentType), id, f.put);
    if f.put != Stored then (DeleteObject(put, place, id, f.deleteRaises), Failed(StorageUnavailable))
    else
      var flushed := Record(put, Flushed(id));
      if f.flushRaises then (DeleteObject(flushed, place, id, f.deleteRaises), Failed(FlushFailed))
      else (flushed.(rows := s.rows[id := row]), Uploaded(row))
  }

  /** `attach` */
  function Attach(codec: Codec, s: Stores, c: Context, u: Upload, id: string, f: Faults): (Stores, Reply) {
    if PolicyError(c).Some? then (s, Failed(PolicyError(c).value))
    else
      var (content, refused) := Inspect(codec, u);
      if refused.Some? then (s, Failed(refused.value))
      else if c.mode == ScannerRequired then
        var scanned := Record(s, Scanned(id, f.scan));
        if ScanError(f.scan).Some? then (scanned, Failed(ScanError(f.scan).value))
        else Store(codec, scanned, c, u, id, content, f)
      else Store(codec, s, c, u, id, content, f)
  }

  // ---- reading

  /** What the object store answers: raises, something that is not bytes, or bytes. */
  datatype Answer = GetRaises | NotBytes | Got(content: Bytes)

  datatype Read = Content(content: Bytes) | ReadFailed(error: Error)

  /** `read_content` */
  function ReadContent(codec: Codec, row: Row, answer: Answer): Read {
    var content := if row.objectKey != "" then answer else Got(row.content);
    match content
    case GetRaises => ReadFailed(StorageUnavailable)
    case NotBytes => ReadFailed(StorageIntegrity)
    case Got(bytes) =>
      if |bytes| == row.size && codec.hash(bytes) == row.sha256 then Content(bytes) else ReadFailed(StorageIntegrity)
  }

  // ---- the service

  class AttachmentService {
    const codec: Codec
    var objects: map<(string, string), Object>
    var rows: map<string, Row>
    ghost var trace: seq<Event>

    ghost function State(): Stores
      reads this
    {
      Stores(objects, rows, trace)
    }

    constructor (codec: Codec)
      ensures this.codec == codec && State() == Stores(map[], map[], [])
    {
      this.codec := codec;
      objects, rows, trace := map[], map[], [];
    }

    method Put(place: (string, string), o: Object, id: string, put: Put) returns (ok: bool)
      modifies this`objects, this`trace
      ensures State() == PutObject(old(State()), place, o, id, put)
      ensures ok == (put == Stored)
    {
      trace := trace + [PutCalled(id)];
      if put != RaisesEmpty {
        objects := objects[place := o];
      }
      ok := put == Stored;
    }

    method TryDelete(place: (string, string), id: string, raises: bool)
      modifies this`objects, this`trace
      ensures State() == DeleteObject(old(State()), place, id, raises)
    {
      trace := trace + [DeleteCalled(id)];
      if !raises {
        objects := objects - {place};
      }
    }

    method Keep(c: Context, u: Upload, id: string, content: Bytes, f: Faults) returns (reply: Reply)
      modifies this
      ensures (State(), reply) == Store(codec, old(State()), c, u, id, content, f)
    {
      var place := (c.tenant, KeyOf(id, u));
      var stored := Put(place, Object(content, u.contentType), id, f.put);
      if !stored {
        TryDelete(place, id, f.deleteRaises);
        return Failed(StorageUnavailable);
      }
      var row := RowOf(codec, c, u, id, content);
      trace := trace + [Flushed(id)];
      if f.flushRaises {
        TryDelete(place, id, f.deleteRaises);
        return Failed(FlushFailed);
      }
      rows := rows[id := row];
      reply := Uploaded(row);
    }

    method Upload(c: Context, u: Upload, id: string, f: Faults) returns (reply: Reply)
      modifies this
      ensures (State(), reply) == Attach(codec, old(State()), c, u, id, f)
    {
      var refused := PolicyError(c);
      if refused.Some? {
        return Failed(refused.value);
      }
      var (content, invalid) := Inspect(codec, u);
      if invalid.Some? {
        return Failed(invalid.value);
      }
      if c.mode == ScannerRequired {
        trace := trace + [Scanned(id, f.scan)];
        if f.scan != Accepts {
          return Failed(ScanError(f.scan).value);
        }
      }
      reply := Keep(c, u, id, content, f);
    }
  }
}
