module ReleaseVersions {
  /** Release versions: X.Y.Z, or X.Y.Z-channel.N before the stable release. */

  import opened Common

  datatype Channel = Alpha | Beta | Rc

  datatype ReleaseVersion = ReleaseVersion(major: nat, minor: nat, patch: nat, channel: Option<Channel>, ordinal: Option<nat>) {
    predicate IsStable() {
      channel.None?
    }

    predicate WellFormed() {
      channel.None? == ordinal.None? && (ordinal.Some? ==> ordinal.value > 0)
    }

    predicate SameTrain(other: ReleaseVersion) {
      major == other.major && minor == other.minor && patch == other.patch
    }
  }

  /** The versions the parser returns. */
  type Version = v: ReleaseVersion | v.WellFormed() witness ReleaseVersion(0, 0, 0, None, None)

  // ---- printing

  function Name(c: Channel): string {
    match c
    case Alpha => "alpha"
    case Beta => "beta"
    case Rc => "rc"
  }

  function Suffix(c: Channel): string {
    match c
    case Alpha => "a"
    case Beta => "b"
    case Rc => "rc"
  }

  function OrdinalText(n: Option<nat>): string {
    if n.Some? then Decimal(n.value) else "None"
  }

  /** What follows the patch number. */
  function Tail(v: ReleaseVersion): string {
    if v.IsStable() then "" else "-" + (Name(v.channel.value) + ("." + OrdinalText(v.ordinal)))
  }

  function PepTail(v: ReleaseVersion): string {
    if v.IsStable() then "" else Suffix(v.channel.value) + OrdinalText(v.ordinal)
  }

  function Numbers(v: ReleaseVersion, tail: string): string {
    Decimal(v.major) + ("." + (Decimal(v.minor) + ("." + (Decimal(v.patch) + tail))))
  }

  /** `ReleaseVersion.version` */
  function Print(v: ReleaseVersion): string {
    Numbers(v, Tail(v))
  }

  /** `ReleaseVersion.pep440` */
  function Pep440(v: ReleaseVersion): string {
    Numbers(v, PepTail(v))
  }

  // ---- parsing

  /** What `str.strip` removes. */
  predicate IsSpace(c: char) {
    var n := c as int;
    9 <= n <= 13 || 28 <= n <= 32 || n == 133 || n == 160 || n == 5760 || 8192 <= n <= 8202
    || n == 8232 || n == 8233 || n == 8239 || n == 8287 || n == 12288
  }

  function StripLeft(s: string): string {
    if s != "" && IsSpace(s[0]) then StripLeft(s[1..]) else s
  }

  function StripRight(s: string): string {
    if s != "" && IsSpace(s[|s| - 1]) then StripRight(s[..|s| - 1]) else s
  }

  function Strip(s: string): string {
    StripRight(StripLeft(s))
  }

  function DigitCount(s: string): (n: nat)
    ensures n <= |s| && forall i :: 0 <= i < n ==> IsDigit(s[i])
    ensures n < |s| ==> !IsDigit(s[n])
  {
    if s != "" && IsDigit(s[0]) then 1 + DigitCount(s[1..]) else 0
  }

  predicate EndsNumeral(rest: string) {
    rest == "" || !IsDigit(rest[0])
  }

  /** `0|[1-9][0-9]*` at the front of `s`, with what follows. */
  function ReadNumeral(s: string): Option<(nat, string)> {
    var n := DigitCount(s);
    if n == 0 || (s[0] == '0' && n > 1) then None else Some((ReadDecimal(s[..n]), s[n..]))
  }

  function After(s: string, prefix: string): Option<string> {
    if StartsWith(s, prefix) then Some(s[|prefix|..]) else None
  }

  function ReadChannel(s: string): Option<(Channel, string)> {
    var a, b, r := After(s, Name(Alpha)), After(s, Name(Beta)), After(s, Name(Rc));
    if a.Some? then Some((Alpha, a.value))
    else if b.Some? then Some((Beta, b.value))
    else if r.Some? then Some((Rc, r.value))
    else None
  }

  function ReadTail(s: string): Option<(Option<Channel>, Option<nat>)> {
    if s == "" then Some((None, None))
    else if s[0] != '-' then None
    else
      match ReadChannel(s[1..])
      case None => None
      case Some((channel, rest)) =>
        if rest == "" || rest[0] != '.' then None
        else
          match ReadNumeral(rest[1..])
          case None => None
          case Some((n, left)) => if left == "" && n > 0 then Some((Some(channel), Some(n))) else None
  }

  /** A numeral followed by a dot. */
  function ReadPart(s: string): Option<(nat, string)> {
    match ReadNumeral(s)
    case None => None
    case Some((n, rest)) => if rest == "" || rest[0] != '.' then None else Some((n, rest[1..]))
  }

  function ParseExact(s: string): Option<ReleaseVersion> {
    match ReadPart(s)
    case None => None
    case Some((major, s1)) =>
      match ReadPart(s1)
      case None => None
      case Some((minor, s2)) =>
        match ReadNumeral(s2)
        case None => None
        case Some((patch, s3)) =>
          match ReadTail(s3)
          case None => None
          case Some((channel, ordinal)) => Some(ReleaseVersion(major, minor, patch, channel, ordinal))
  }

  /** `parse_candidate_version` */
  function Parse(s: string): Option<ReleaseVersion> {
    ParseExact(Strip(s))
  }

  // ---- numerals

  lemma {:induction false} DigitCountOfAppend(s: string, rest: string)
    requires forall i :: 0 <= i < |s| ==> IsDigit(s[i])
    requires EndsNumeral(rest)
    ensures DigitCount(s + rest) == |s|
  {
    if s == "" {
      assert s + rest == rest;
    } else {
      assert (s + rest)[1..] == s[1..] + rest;
      DigitCountOfAppend(s[1..], rest);
    }
  }

  lemma ReadNumeralOfDecimal(n: nat, rest: string)
    requires EndsNumeral(rest)
    ensures ReadNumeral(Decimal(n) + rest) == Some((n, rest))
  {
    var s := Decimal(n) + rest;
    DigitCountOfAppend(Decimal(n), rest);
    assert s[..|Decimal(n)|] == Decimal(n) && s[|Decimal(n)|..] == rest;
    ReadDecimalOfDecimal(n);
  }

  lemma DecimalOfReadNumeral(s: string)
    requires ReadNumeral(s).Some?
    ensures var (n, rest) := ReadNumeral(s).value; s == Decimal(n) + rest && EndsNumeral(rest)
  {
    var n := DigitCount(s);
    DecimalOfReadDecimal(s[..n]);
    assert s == s[..n] + s[n..];
  }

  /** A numeral and what follows it can be told apart. */
  lemma DecimalSplits(m: nat, n: nat, p: string, q: string)
    requires EndsNumeral(p) && EndsNumeral(q) && Decimal(m) + p == Decimal(n) + q
    ensures m == n && p == q
  {
    ReadNumeralOfDecimal(m, p);
    ReadNumeralOfDecimal(n, q);
  }

  // ---- stripping

  predicate Bare(s: string) {
    s != "" ==> !IsSpace(s[0]) && !IsSpace(s[|s| - 1])
  }

  lemma LastOfAppend(a: string, b: string)
    requires b != ""
    ensures (a + b)[|a + b| - 1] == b[|b| - 1]
  {
  }

  lemma NumbersAreBare(v: ReleaseVersion, tail: string)
    requires tail != "" ==> !IsSpace(tail[|tail| - 1])
    ensures Bare(Numbers(v, tail))
  {
    var last := Decimal(v.patch) + tail;
    assert last[|last| - 1] == if tail == "" then Decimal(v.patch)[|Decimal(v.patch)| - 1] else tail[|tail| - 1];
    assert IsDigit(Decimal(v.patch)[|Decimal(v.patch)| - 1]);
    LastOfAppend(Decimal(v.major) + ("." + (Decimal(v.minor) + ".")), last);
    assert Numbers(v, tail) == (Decimal(v.major) + ("." + (Decimal(v.minor) + "."))) + last;
    assert IsDigit(Decimal(v.major)[0]);
  }

  lemma PrintIsBare(v: ReleaseVersion)
    requires v.WellFormed()
    ensures Bare(Print(v))
  {
    if v.ordinal.Some? {
      var n := Decimal(v.ordinal.value);
      assert IsDigit(n[|n| - 1]);
      LastOfAppend("-" + (Name(v.channel.value) + "."), n);
      assert Tail(v) == ("-" + (Name(v.channel.value) + ".")) + n;
    }
    NumbersAreBare(v, Tail(v));
  }

  // ---- round trips

  lemma ReadTailOfTail(v: ReleaseVersion)
    requires v.WellFormed()
    ensures ReadTail(Tail(v)) == Some((v.channel, v.ordinal))
  {
    if v.channel.Some? {
      var n := v.ordinal.value;
      var dotted := "." + Decimal(n);
      assert Tail(v)[1..] == Name(v.channel.value) + dotted;
      ReadChannelOfName(v.channel.value, dotted);
      assert dotted[1..] == Decimal(n) + "";
      ReadNumeralOfDecimal(n, "");
    }
  }

  lemma ReadChannelOfName(c: Channel, rest: string)
    ensures ReadChannel(Name(c) + rest) == Some((c, rest))
  {
    var s := Name(c) + rest;
    assert s[..|Name(c)|] == Name(c) && s[|Name(c)|..] == rest;
    assert s[0] == Name(c)[0];
    if StartsWith(s, Name(Alpha)) { assert s[0] == Name(Alpha)[0]; }
    if StartsWith(s, Name(Beta)) { assert s[0] == Name(Beta)[0]; }
  }

  lemma ReadPartOfDecimal(n: nat, rest: string)
    ensures ReadPart(Decimal(n) + ("." + rest)) == Some((n, rest))
  {
    ReadNumeralOfDecimal(n, "." + rest);
    assert ("." + rest)[1..] == rest;
  }

  lemma TailEndsNumeral(v: ReleaseVersion)
    ensures EndsNumeral(Tail(v)) && EndsNumeral(PepTail(v))
  {
  }

  lemma ParseExactOfPrint(v: ReleaseVersion)
    requires v.WellFormed()
    ensures ParseExact(Print(v)) == Some(v)
  {
    var s2 := Decimal(v.patch) + Tail(v);
    var s1 := Decimal(v.minor) + ("." + s2);
    ReadPartOfDecimal(v.major, s1);
    ReadPartOfDecimal(v.minor, s2);
    TailEndsNumeral(v);
    ReadNumeralOfDecimal(v.patch, Tail(v));
    ReadTailOfTail(v);
  }

  /** Parsing the printed form of a well-formed version gives the version back. */
  lemma ParseOfPrint(v: ReleaseVersion)
    requires v.WellFormed()
    ensures Parse(Print(v)) == Some(v)
  {
    PrintIsBare(v);
    BareIsStripped(Print(v));
    ParseExactOfPrint(v);
  }

  lemma BareIsStripped(s: string)
    requires Bare(s)
    ensures Strip(s) == s
  {
  }

  lemma TailOfReadTail(s: string, v: ReleaseVersion)
    requires ReadTail(s) == Some((v.channel, v.ordinal))
    ensures Tail(v) == s && v.WellFormed()
  {
    if s != "" {
      var (channel, rest) := ReadChannel(s[1..]).value;
      assert s[1..] == Name(channel) + rest;
      DecimalOfReadNumeral(rest[1..]);
      assert rest == "." + rest[1..];
      assert rest[1..] == Decimal(v.ordinal.value) + "";
      assert s == "-" + s[1..];
    }
  }

  lemma DecimalOfReadPart(s: string)
    requires ReadPart(s).Some?
    ensures var (n, rest) := ReadPart(s).value; s == Decimal(n) + ("." + rest)
  {
    DecimalOfReadNumeral(s);
    var rest := ReadNumeral(s).value.1;
    assert rest == "." + rest[1..];
  }

  /** Whatever string is accepted, printing the result gives the stripped string back. */
  lemma PrintOfParse(s: string)
    requires Parse(s).Some?
    ensures Parse(s).value.WellFormed() && Print(Parse(s).value) == Strip(s)
  {
    var v, s0 := Parse(s).value, Strip(s);
    DecimalOfReadPart(s0);
    var s1 := ReadPart(s0).value.1;
    DecimalOfReadPart(s1);
    var s2 := ReadPart(s1).value.1;
    DecimalOfReadNumeral(s2);
    TailOfReadTail(ReadNumeral(s2).value.1, v);
  }

  /** A string is accepted exactly when its stripped form is the printed form of a well-formed version. */
  lemma AcceptedIff(s: string)
    ensures Parse(s).Some? <==> exists v: ReleaseVersion :: v.WellFormed() && Print(v) == Strip(s)
  {
    if Parse(s).Some? {
      PrintOfParse(s);
    }
    forall v: ReleaseVersion | v.WellFormed() && Print(v) == Strip(s)
      ensures Parse(s).Some?
    {
      ParseOfPrint(v);
      PrintIsBare(v);
    }
  }

  lemma PrintIsInjective(v: ReleaseVersion, w: ReleaseVersion)
    requires v.WellFormed() && w.WellFormed() && Print(v) == Print(w)
    ensures v == w
  {
    ParseOfPrint(v);
    ParseOfPrint(w);
  }

  lemma NumbersSplit(v: ReleaseVersion, w: ReleaseVersion, p: string, q: string)
    requires EndsNumeral(p) && EndsNumeral(q) && Numbers(v, p) == Numbers(w, q)
    ensures v.SameTrain(w) && p == q
  {
    var v2, w2 := Decimal(v.patch) + p, Decimal(w.patch) + q;
    var v1, w1 := Decimal(v.minor) + ("." + v2), Decimal(w.minor) + ("." + w2);
    DecimalSplits(v.major, w.major, "." + v1, "." + w1);
    assert ("." + v1)[1..] == v1 && ("." + w1)[1..] == w1;
    DecimalSplits(v.minor, w.minor, "." + v2, "." + w2);
    assert ("." + v2)[1..] == v2 && ("." + w2)[1..] == w2;
    DecimalSplits(v.patch, w.patch, p, q);
  }

  /** Two well-formed versions with the same PEP 440 form are the same version. */
  lemma Pep440IsInjective(v: ReleaseVersion, w: ReleaseVersion)
    requires v.WellFormed() && w.WellFormed() && Pep440(v) == Pep440(w)
    ensures v == w
  {
    TailEndsNumeral(v);
    TailEndsNumeral(w);
    NumbersSplit(v, w, PepTail(v), PepTail(w));
    if v.channel.Some? && w.channel.Some? {
      var a, b := Suffix(v.channel.value), Suffix(w.channel.value);
      assert PepTail(v)[0] == a[0] && PepTail(w)[0] == b[0];
      assert PepTail(v)[|a|..] == Decimal(v.ordinal.value) && PepTail(w)[|b|..] == Decimal(w.ordinal.value);
      ReadDecimalOfDecimal(v.ordinal.value);
      ReadDecimalOfDecimal(w.ordinal.value);
    }
  }
}
