module AttachmentGuarantees {
  /** Over any run of uploads, with any faults, the object store and the rows agree. */

  import opened Common
  import opened Attachments

  /** One upload of a run; `id` stands for a fresh UUID. */
  datatype Attempt = Attempt(c: Context, u: Upload, id: string, f: Faults)

  function Place(a: Attempt): (string, string) {
    (a.c.tenant, KeyOf(a.id, a.u))
  }

  function Run(codec: Codec, s: Stores, attempts: seq<Attempt>): Stores {
    if attempts == [] then s
    else
      var a := attempts[|attempts| - 1];
      Attach(codec, Run(codec, s, attempts[..|attempts| - 1]), a.c, a.u, a.id, a.f).0
  }

  const EMPTY: Stores := Stores(map[], map[], [])

  // ---- one upload

  /** A failed upload leaves no row, touches no other object, and leaves its own object behind only when
      the compensating delete raised after the object had been stored. */
  lemma FailureIsCompensated(codec: Codec, s: Stores, a: Attempt)
    requires Attach(codec, s, a.c, a.u, a.id, a.f).1.Failed?
    requires Place(a) !in s.objects
    ensures var r := Attach(codec, s, a.c, a.u, a.id, a.f).0;
      && r.rows == s.rows
      && (r.objects == s.objects || (a.f.deleteRaises && a.f.put != RaisesEmpty && r.objects.Keys == s.objects.Keys + {Place(a)}))
      && (forall p :: p in s.objects ==> p in r.objects && r.objects[p] == s.objects[p])
  {
  }

  /** A successful upload adds one row and one object, which agree with each other and with the file. */
  lemma SuccessIsStored(codec: Codec, s: Stores, a: Attempt)
    requires Attach(codec, s, a.c, a.u, a.id, a.f).1.Uploaded?
    ensures var r := Attach(codec, s, a.c, a.u, a.id, a.f).0;
      && codec.decode(a.u.encoded).Some?
      && var content, key := codec.decode(a.u.encoded).value, "attachments/" + a.id + "/" + a.u.filename;
      && r.objects == s.objects[(a.c.tenant, key) := Object(content, a.u.contentType)]
      && r.rows == s.rows[a.id := Row(a.id, a.c.workspace, a.c.entityId, a.u.filename, a.u.contentType, |content|,
                                      codec.hash(content), [], key)]
  {
  }

  // ---- when an upload succeeds

  /** The actor may write in its own canonical tenant, the record can be written to, and uploads are on: of
      trusted types, or with a real scanner. */
  ghost predicate MayUpload(c: Context) {
    && c.mayWrite && c.tenant == c.actorTenant && c.tenantIsCanonical && c.reference == Active
    && (c.mode == TrustedTypes || (c.mode == ScannerRequired && c.scanner == RealScanner))
  }

  ghost predicate SafeName(name: string) {
    && name != "." && name != ".."
    && forall i :: 0 <= i < |name| ==> name[i] != '/' && name[i] != '\\' && name[i] as int >= 32
  }

  ghost predicate KnownType(contentType: string) {
    contentType == "text/plain" || contentType == "image/png" || contentType == "image/jpeg" || contentType == "application/pdf"
  }

  ghost predicate FitSize(content: Bytes) {
    1 <= |content| <= 1_000_000
  }

  /** Texts are UTF-8, and the other types begin with their signatures. */
  ghost predicate Signed(codec: Codec, contentType: string, content: Bytes) {
    && (contentType == "text/plain" ==> codec.isUtf8(content))
    && (contentType == "image/png" ==> [0x89, 0x50, 0x4E, 0x47, 0x0D, 0x0A, 0x1A, 0x0A] <= content)
    && (contentType == "image/jpeg" ==> [0xFF, 0xD8, 0xFF] <= content)
    && (contentType == "application/pdf" ==> [0x25, 0x50, 0x44, 0x46, 0x2D] <= content)
  }

  /** An upload succeeds exactly when it may be made, its name, type, size and signature are in order, the scan
      accepts it where one is required, and neither store fails. */
  lemma UploadedIff(codec: Codec, s: Stores, a: Attempt)
    ensures Attach(codec, s, a.c, a.u, a.id, a.f).1.Uploaded? <==>
      && MayUpload(a.c) && SafeName(a.u.filename) && KnownType(a.u.contentType)
      && codec.decode(a.u.encoded).Some?
      && FitSize(codec.decode(a.u.encoded).value) && Signed(codec, a.u.contentType, codec.decode(a.u.encoded).value)
      && (a.c.mode == ScannerRequired ==> a.f.scan == Accepts)
      && a.f.put == Stored && !a.f.flushRaises
  {
  }

  /** The conditions of an upload with the errors for them, in the order in which they are made. */
  ghost function Conditions(codec: Codec, a: Attempt): seq<(bool, Error)> {
    var decoded := codec.decode(a.u.encoded);
    var scanned := a.c.mode == ScannerRequired;
    [(a.c.mayWrite, Forbidden),
     (a.c.mode != UnknownMode, PolicyInvalid),
     (a.c.tenant == a.c.actorTenant, TenantForbidden),
     (a.c.tenantIsCanonical, StorageConfiguration),
     (a.c.mode != Disabled, AttachmentsDisabled),
     (scanned ==> a.c.scanner == RealScanner, ScannerUnavailable),
     (a.c.reference != Missing, NotFound),
     (a.c.reference != Archived, ArchivedReadonly),
     (SafeName(a.u.filename), UnsafeFilename),
     (KnownType(a.u.contentType), UnsafeFileType),
     (decoded.Some?, InvalidFile),
     (decoded.Some? ==> FitSize(decoded.value), FileTooLarge),
     (decoded.Some? ==> Signed(codec, a.u.contentType, decoded.value), InvalidFile),
     (scanned ==> a.f.scan == Accepts || a.f.scan == Rejects, ScannerUnavailable),
     (scanned ==> a.f.scan == Accepts, MalwareRejected),
     (a.f.put == Stored, StorageUnavailable),
     (!a.f.flushRaises, FlushFailed)]
  }

  /** The `k`-th condition is the first that does not hold. */
  ghost predicate FirstFailing(conditions: seq<(bool, Error)>, k: nat) {
    k < |conditions| && !conditions[k].0 && forall j :: 0 <= j < k ==> conditions[j].0
  }

  /** A refused upload is answered with the error of its first condition that does not hold. */
  lemma RefusedWith(codec: Codec, s: Stores, a: Attempt, k: nat)
    requires FirstFailing(Conditions(codec, a), k)
    ensures Attach(codec, s, a.c, a.u, a.id, a.f).1 == Failed(Conditions(codec, a)[k].1)
  {
    var all := Conditions(codec, a);
    InspectIs(codec, a.u);
    assert (k > 0 ==> all[0].0) && (k > 1 ==> all[1].0) && (k > 2 ==> all[2].0) && (k > 3 ==> all[3].0);
    assert (k > 4 ==> all[4].0) && (k > 5 ==> all[5].0) && (k > 6 ==> all[6].0) && (k > 7 ==> all[7].0);
    assert (k > 8 ==> all[8].0) && (k > 9 ==> all[9].0) && (k > 10 ==> all[10].0) && (k > 11 ==> all[11].0);
    assert (k > 12 ==> all[12].0) && (k > 13 ==> all[13].0) && (k > 14 ==> all[14].0) && (k > 15 ==> all[15].0);
  }

  lemma InspectIs(codec: Codec, u: Upload)
    ensures var refused := Inspect(codec, u).1;
      && (!SafeName(u.filename) ==> refused == Some(UnsafeFilename))
      && (SafeName(u.filename) && !KnownType(u.contentType) ==> refused == Some(UnsafeFileType))
      && (SafeName(u.filename) && KnownType(u.contentType) ==>
            match codec.decode(u.encoded)
            case None => refused == Some(InvalidFile)
            case Some(content) =>
              refused == if !FitSize(content) then Some(FileTooLarge)
                         else if !Signed(codec, u.contentType, content) then Some(InvalidFile) else None)
  {
  }

  // ---- the scanner comes first

  /** Every put called under `scanner_required` follows a scan of the same upload that returned True. */
  ghost predicate ScannedFirst(trace: seq<Event>, required: string -> bool) {
    forall i :: 0 <= i < |trace| && trace[i].PutCalled? && required(trace[i].id) ==>
      exists j :: 0 <= j < i && trace[j] == Scanned(trace[i].id, Accepts)
  }

  lemma ScannedFirstGrows(trace: seq<Event>, e: Event, required: string -> bool)
    requires ScannedFirst(trace, required)
    requires e.PutCalled? && required(e.id) ==> Scanned(e.id, Accepts) in trace
    ensures ScannedFirst(trace + [e], required)
  {
    var more := trace + [e];
    forall i | 0 <= i < |more| && more[i].PutCalled? && required(more[i].id)
      ensures exists j :: 0 <= j < i && more[j] == Scanned(more[i].id, Accepts)
    {
      if i < |trace| {
        var j :| 0 <= j < i && trace[j] == Scanned(trace[i].id, Accepts);
        assert more[j] == Scanned(more[i].id, Accepts);
      } else {
        var j :| 0 <= j < |trace| && trace[j] == Scanned(e.id, Accepts);
        assert more[j] == trace[j];
      }
    }
  }

  lemma StoreScansFirst(codec: Codec, s: Stores, a: Attempt, content: Bytes, required: string -> bool)
    requires ScannedFirst(s.trace, required)
    requires required(a.id) ==> Scanned(a.id, Accepts) in s.trace
    ensures ScannedFirst(Store(codec, s, a.c, a.u, a.id, content, a.f).0.trace, required)
  {
    var put, flushed := s.trace + [PutCalled(a.id)], s.trace + [PutCalled(a.id)] + [Flushed(a.id)];
    ScannedFirstGrows(s.trace, PutCalled(a.id), required);
    ScannedFirstGrows(put, DeleteCalled(a.id), required);
    ScannedFirstGrows(put, Flushed(a.id), required);
    ScannedFirstGrows(flushed, DeleteCalled(a.id), required);
  }

  lemma AttachScansFirst(codec: Codec, s: Stores, a: Attempt, required: string -> bool)
    requires ScannedFirst(s.trace, required) && (required(a.id) ==> a.c.mode == ScannerRequired)
    ensures ScannedFirst(Attach(codec, s, a.c, a.u, a.id, a.f).0.trace, required)
  {
    var (content, refused) := Inspect(codec, a.u);
    if PolicyError(a.c).None? && refused.None? {
      if a.c.mode == ScannerRequired {
        var scanned := Record(s, Scanned(a.id, a.f.scan));
        ScannedFirstGrows(s.trace, Scanned(a.id, a.f.scan), required);
        if a.f.scan == Accepts {
          assert scanned.trace[|s.trace|] == Scanned(a.id, Accepts);
          StoreScansFirst(codec, scanned, a, content, required);
        }
      } else {
        StoreScansFirst(codec, s, a, content, required);
      }
    }
  }

  /** Over any run no object is put under `scanner_required` before the scanner returned exactly True. */
  lemma {:induction false} RunScansFirst(codec: Codec, attempts: seq<Attempt>, required: string -> bool)
    requires forall i :: 0 <= i < |attempts| && required(attempts[i].id) ==> attempts[i].c.mode == ScannerRequired
    ensures ScannedFirst(Run(codec, EMPTY, attempts).trace, required)
  {
    if attempts != [] {
      var front := attempts[..|attempts| - 1];
      RunScansFirst(codec, front, required);
      AttachScansFirst(codec, Run(codec, EMPTY, front), attempts[|attempts| - 1], required);
    }
  }

  // ---- the stores agree

  /** The upload a row or an object came from. */
  predicate Kept(codec: Codec, s: Stores, a: Attempt) {
    && a.id in s.rows
    && codec.decode(a.u.encoded).Some?
    && s.rows[a.id] == RowOf(codec, a.c, a.u, a.id, codec.decode(a.u.encoded).value)
    && Place(a) in s.objects && s.objects[Place(a)] == Object(codec.decode(a.u.encoded).value, a.u.contentType)
  }

  predicate Orphaned(s: Stores, a: Attempt) {
    a.id !in s.rows && Place(a) in s.objects && a.f.deleteRaises && a.f.put != RaisesEmpty
  }

  predicate Absent(s: Stores, a: Attempt) {
    a.id !in s.rows && Place(a) !in s.objects
  }

  /** Every upload is kept in both stores, absent from both, or an orphan whose delete raised; and there is
      nothing else in either store. */
  ghost predicate Agree(codec: Codec, s: Stores, attempts: seq<Attempt>) {
    && (forall i :: 0 <= i < |attempts| ==> Kept(codec, s, attempts[i]) || Absent(s, attempts[i]) || Orphaned(s, attempts[i]))
    && (forall id :: id in s.rows ==> exists i :: 0 <= i < |attempts| && attempts[i].id == id)
    && (forall p :: p in s.objects ==> exists i :: 0 <= i < |attempts| && Place(attempts[i]) == p)
  }

  const UUID_LENGTH := 36

  /** Identifiers as fresh UUIDs: of one length and pairwise distinct. */
  ghost predicate Fresh(attempts: seq<Attempt>) {
    && (forall i :: 0 <= i < |attempts| ==> |attempts[i].id| == UUID_LENGTH)
    && (forall i, j :: 0 <= i < j < |attempts| ==> attempts[i].id != attempts[j].id)
  }

  /** Uploads with different identifiers are stored in different places, whatever their file names. */
  lemma PlacesDiffer(a: Attempt, b: Attempt)
    requires |a.id| == |b.id| && a.id != b.id
    ensures Place(a) != Place(b)
  {
    var n := |"attachments/"|;
    assert KeyOf(a.id, a.u)[n..n + |a.id|] == a.id;
    assert KeyOf(b.id, b.u)[n..n + |b.id|] == b.id;
  }

  lemma AttachIsLocal(codec: Codec, s: Stores, a: Attempt)
    requires Absent(s, a)
    ensures var r := Attach(codec, s, a.c, a.u, a.id, a.f).0;
      && (Kept(codec, r, a) || Absent(r, a) || Orphaned(r, a))
      && (Attach(codec, s, a.c, a.u, a.id, a.f).1.Uploaded? <==> Kept(codec, r, a))
      && (forall id :: id != a.id ==> (id in r.rows <==> id in s.rows) && (id in s.rows ==> r.rows[id] == s.rows[id]))
      && (forall p :: p != Place(a) ==> (p in r.objects <==> p in s.objects) && (p in s.objects ==> r.objects[p] == s.objects[p]))
  {
    if Attach(codec, s, a.c, a.u, a.id, a.f).1.Uploaded? {
      SuccessIsStored(codec, s, a);
    } else {
      FailureIsCompensated(codec, s, a);
    }
  }

  lemma AgreeGrows(codec: Codec, s: Stores, r: Stores, attempts: seq<Attempt>, a: Attempt)
    requires Agree(codec, s, attempts) && Absent(s, a)
    requires forall i :: 0 <= i < |attempts| ==> attempts[i].id != a.id && Place(attempts[i]) != Place(a)
    requires Kept(codec, r, a) || Absent(r, a) || Orphaned(r, a)
    requires forall id :: id != a.id ==> (id in r.rows <==> id in s.rows) && (id in s.rows ==> r.rows[id] == s.rows[id])
    requires forall p :: p != Place(a) ==> (p in r.objects <==> p in s.objects) && (p in s.objects ==> r.objects[p] == s.objects[p])
    ensures Agree(codec, r, attempts + [a])
  {
    var more := attempts + [a];
    forall i | 0 <= i < |more|
      ensures Kept(codec, r, more[i]) || Absent(r, more[i]) || Orphaned(r, more[i])
    {
      if i < |attempts| {
        assert Kept(codec, s, attempts[i]) || Absent(s, attempts[i]) || Orphaned(s, attempts[i]);
      }
    }
    forall id | id in r.rows
      ensures exists i :: 0 <= i < |more| && more[i].id == id
    {
      if id == a.id {
        assert more[|attempts|].id == id;
      } else {
        var i :| 0 <= i < |attempts| && attempts[i].id == id;
        assert more[i].id == id;
      }
    }
    forall p | p in r.objects
      ensures exists i :: 0 <= i < |more| && Place(more[i]) == p
    {
      if p == Place(a) {
        assert Place(more[|attempts|]) == p;
      } else {
        var i :| 0 <= i < |attempts| && Place(attempts[i]) == p;
        assert Place(more[i]) == p;
      }
    }
  }

  /** After any run of uploads with fresh identifiers and any faults, each upload is in both stores, in
      neither, or left an object whose compensating delete raised. */
  lemma {:induction false} RunAgrees(codec: Codec, attempts: seq<Attempt>)
    requires Fresh(attempts)
    ensures Agree(codec, Run(codec, EMPTY, attempts), attempts)
  {
    if attempts != [] {
      var front, a := attempts[..|attempts| - 1], attempts[|attempts| - 1];
      assert attempts == front + [a];
      RunAgrees(codec, front);
      var s := Run(codec, EMPTY, front);
      forall i | 0 <= i < |front|
        ensures front[i].id != a.id && Place(front[i]) != Place(a)
      {
        assert attempts[i].id != attempts[|front|].id;
        PlacesDiffer(front[i], a);
      }
      AttachIsLocal(codec, s, a);
      AgreeGrows(codec, s, Attach(codec, s, a.c, a.u, a.id, a.f).0, front, a);
    }
  }

  // ---- reading back

  ghost predicate Injective(hash: Bytes -> string) {
    forall x: Bytes, y: Bytes :: hash(x) == hash(y) ==> x == y
  }

  /** Bytes are returned exactly when they are what the row names, of its size and digest; an error of the store
      and anything else are told apart. */
  lemma ReadIff(codec: Codec, row: Row, answer: Answer, content: Bytes)
    ensures ReadContent(codec, row, answer) == Content(content) <==>
      && (if row.objectKey == "" then row.content == content else answer == Got(content))
      && |content| == row.size && codec.hash(content) == row.sha256
    ensures ReadContent(codec, row, answer) == ReadFailed(StorageUnavailable) <==> row.objectKey != "" && answer == GetRaises
    ensures ReadContent(codec, row, answer).ReadFailed? ==>
      ReadContent(codec, row, answer).error in {StorageUnavailable, StorageIntegrity}
  {
  }

  lemma ReadKept(codec: Codec, s: Stores, a: Attempt, answer: Answer)
    requires Kept(codec, s, a) && Injective(codec.hash)
    ensures var r := ReadContent(codec, s.rows[a.id], answer);
      && (r.Content? ==> Some(r.content) == codec.decode(a.u.encoded))
      && (answer == Got(s.objects[Place(a)].content) ==> r.Content?)
  {
    assert KeyOf(a.id, a.u) != "";
  }

  /** Whatever the object store answers, reading a kept upload returns the uploaded bytes or an error;
      with the bytes the store holds it returns them. */
  lemma ReadIsFaithful(codec: Codec, attempts: seq<Attempt>, i: nat, answer: Answer)
    requires Fresh(attempts) && i < |attempts| && Injective(codec.hash)
    requires attempts[i].id in Run(codec, EMPTY, attempts).rows
    ensures var s, a := Run(codec, EMPTY, attempts), attempts[i];
      && Place(a) in s.objects && codec.decode(a.u.encoded).Some?
      && var r := ReadContent(codec, s.rows[a.id], answer);
         && (r.Content? ==> Some(r.content) == codec.decode(a.u.encoded))
         && (answer == Got(s.objects[Place(a)].content) ==> r.Content?)
  {
    RunAgrees(codec, attempts);
    ReadKept(codec, Run(codec, EMPTY, attempts), attempts[i], answer);
  }
}
