module VersionGrammar {
  /** The texts that name release versions, letter by letter.

      The grammar is written out here on its own, with its keywords and by place value, and tied to what
      ReleaseVersions reads and prints. */

  import opened Common
  import opened ReleaseVersions

  // ---- numerals

  ghost predicate AllDigits(s: string) {
    forall i :: 0 <= i < |s| ==> '0' <= s[i] <= '9'
  }

  function TenToThe(k: nat): nat {
    if k == 0 then 1 else 10 * TenToThe(k - 1)
  }

  /** The value of a string of digits, each digit counted by its place. */
  ghost function PlaceValue(s: string): nat
    requires AllDigits(s)
  {
    if s == "" then 0 else (s[0] - '0') as nat * TenToThe(|s| - 1) + PlaceValue(s[1..])
  }

  /** `s` writes `n` without superfluous zeros. */
  ghost predicate Numeral(s: string, n: nat) {
    s != "" && AllDigits(s) && (s[0] == '0' ==> s == "0") && PlaceValue(s) == n
  }

  lemma Shifts(d: nat, k: nat)
    ensures d * TenToThe(k + 1) == 10 * (d * TenToThe(k))
  {
    var t := TenToThe(k);
    assert d * (10 * t) == 10 * (d * t);
  }

  lemma {:induction false} PlaceValueSnoc(s: string, c: char)
    requires AllDigits(s) && '0' <= c <= '9'
    ensures AllDigits(s + [c]) && PlaceValue(s + [c]) == 10 * PlaceValue(s) + (c - '0') as nat
  {
    if s == "" {
      assert (s + [c])[1..] == "";
    } else {
      var rest, d := s[1..], (s[0] - '0') as nat;
      PlaceValueSnoc(rest, c);
      assert (s + [c])[1..] == rest + [c];
      Shifts(d, |s| - 1);
      assert PlaceValue(s + [c]) == d * TenToThe(|s|) + PlaceValue(rest + [c]);
    }
  }

  lemma {:induction false} PlaceValueIsRead(s: string)
    requires AllDigits(s)
    ensures PlaceValue(s) == ReadDecimal(s)
  {
    if s != "" {
      var front, last := s[..|s| - 1], s[|s| - 1];
      PlaceValueIsRead(front);
      PlaceValueSnoc(front, last);
      assert s == front + [last];
    }
  }

  /** The decimal numeral of a number is the one string that writes it. */
  lemma NumeralIff(s: string, n: nat)
    ensures Numeral(s, n) <==> s == Decimal(n)
  {
    if Numeral(s, n) {
      PlaceValueIsRead(s);
      DecimalOfReadDecimal(s);
    }
    if s == Decimal(n) {
      PlaceValueIsRead(s);
      ReadDecimalOfDecimal(n);
    }
  }

  // ---- versions

  /** Three numerals joined by dots, and a tail. */
  ghost predicate Dotted(t: string, v: ReleaseVersion, tail: string) {
    exists x, y, z :: Numeral(x, v.major) && Numeral(y, v.minor) && Numeral(z, v.patch) && t == x + "." + y + "." + z + tail
  }

  /** `text` and a positive ordinal. */
  ghost predicate Numbered(tail: string, text: string, n: nat) {
    n > 0 && exists digits :: Numeral(digits, n) && tail == text + digits
  }

  /** Nothing, or a channel with its ordinal. */
  ghost predicate ChannelTail(tail: string, v: ReleaseVersion) {
    match (v.channel, v.ordinal)
    case (None, None) => tail == ""
    case (Some(Alpha), Some(n)) => Numbered(tail, "-alpha.", n)
    case (Some(Beta), Some(n)) => Numbered(tail, "-beta.", n)
    case (Some(Rc), Some(n)) => Numbered(tail, "-rc.", n)
    case _ => false
  }

  /** `t` is the text of the version `v`. */
  ghost predicate Writes(t: string, v: ReleaseVersion) {
    exists tail :: ChannelTail(tail, v) && Dotted(t, v, tail)
  }

  ghost predicate PepTailOf(tail: string, v: ReleaseVersion) {
    match (v.channel, v.ordinal)
    case (None, None) => tail == ""
    case (Some(Alpha), Some(n)) => Numbered(tail, "a", n)
    case (Some(Beta), Some(n)) => Numbered(tail, "b", n)
    case (Some(Rc), Some(n)) => Numbered(tail, "rc", n)
    case _ => false
  }

  /** `t` is the PEP 440 text of the version `v`. */
  ghost predicate WritesPep440(t: string, v: ReleaseVersion) {
    exists tail :: PepTailOf(tail, v) && Dotted(t, v, tail)
  }

  lemma DottedIff(t: string, v: ReleaseVersion, tail: string)
    ensures Dotted(t, v, tail) <==> t == Numbers(v, tail)
  {
    var x, y, z := Decimal(v.major), Decimal(v.minor), Decimal(v.patch);
    NumeralIff(x, v.major);
    NumeralIff(y, v.minor);
    NumeralIff(z, v.patch);
    assert Numbers(v, tail) == x + "." + y + "." + z + tail;
    forall x', y', z' | Numeral(x', v.major) && Numeral(y', v.minor) && Numeral(z', v.patch)
      ensures x' == x && y' == y && z' == z
    {
      NumeralIff(x', v.major);
      NumeralIff(y', v.minor);
      NumeralIff(z', v.patch);
    }
  }

  lemma NumberedIff(tail: string, text: string, n: nat)
    ensures Numbered(tail, text, n) <==> n > 0 && tail == text + Decimal(n)
  {
    NumeralIff(Decimal(n), n);
    forall digits | Numeral(digits, n)
      ensures digits == Decimal(n)
    {
      NumeralIff(digits, n);
    }
  }

  lemma ChannelTexts(c: Channel)
    ensures "-" + Name(c) + "." == match c case Alpha => "-alpha." case Beta => "-beta." case Rc => "-rc."
  {
  }

  lemma ChannelTailIff(tail: string, v: ReleaseVersion)
    ensures ChannelTail(tail, v) <==> v.WellFormed() && tail == Tail(v)
    ensures PepTailOf(tail, v) <==> v.WellFormed() && tail == PepTail(v)
  {
    if v.channel.Some? && v.ordinal.Some? {
      var n := v.ordinal.value;
      var c := v.channel.value;
      NumberedIff(tail, "-" + Name(c) + ".", n);
      NumberedIff(tail, Suffix(c), n);
      ChannelTexts(c);
      assert Tail(v) == "-" + Name(c) + "." + Decimal(n);
    }
  }

  /** A text is read as a version exactly when, without the white space around it, it writes that version. */
  lemma ParseIff(s: string, v: ReleaseVersion)
    ensures Parse(s) == Some(v) <==> Writes(Strip(s), v)
  {
    WritesIff(Strip(s), v);
    if Parse(s) == Some(v) {
      PrintOfParse(s);
    }
    if v.WellFormed() && Print(v) == Strip(s) {
      ParseOfPrint(v);
      PrintIsBare(v);
    }
  }

  /** What is accepted: the texts that write some version. */
  lemma AcceptedIff(s: string)
    ensures Parse(s).Some? <==> exists v :: Writes(Strip(s), v)
  {
    if Parse(s).Some? {
      ParseIff(s, Parse(s).value);
    }
    forall v | Writes(Strip(s), v)
      ensures Parse(s).Some?
    {
      ParseIff(s, v);
    }
  }

  lemma WritesIff(t: string, v: ReleaseVersion)
    ensures Writes(t, v) <==> v.WellFormed() && t == Print(v)
  {
    ChannelTailIff(Tail(v), v);
    DottedIff(t, v, Tail(v));
    forall tail | ChannelTail(tail, v)
      ensures v.WellFormed() && tail == Tail(v)
    {
      ChannelTailIff(tail, v);
    }
  }

  /** The PEP 440 form has its own suffixes and no dot before the ordinal. */
  lemma Pep440Iff(t: string, v: ReleaseVersion)
    requires v.WellFormed()
    ensures Pep440(v) == t <==> WritesPep440(t, v)
  {
    ChannelTailIff(PepTail(v), v);
    DottedIff(t, v, PepTail(v));
    forall tail | PepTailOf(tail, v)
      ensures tail == PepTail(v)
    {
      ChannelTailIff(tail, v);
    }
  }

  // ---- white space

  /** The code points that `str.isspace` accepts. */
  const WHITE: set<int> := {
    9, 10, 11, 12, 13, 28, 29, 30, 31, 32, 133, 160, 5760, 8192, 8193, 8194, 8195, 8196, 8197, 8198, 8199, 8200, 8201,
    8202, 8232, 8233, 8239, 8287, 12288}

  lemma SpaceIff(c: char)
    ensures IsSpace(c) <==> c as int in WHITE
  {
  }

  ghost predicate AllWhite(s: string) {
    forall i :: 0 <= i < |s| ==> s[i] as int in WHITE
  }

  /** Stripping removes the white space at both ends and nothing else. */
  lemma StripIff(s: string, t: string)
    ensures Strip(s) == t <==>
      && (t != "" ==> t[0] as int !in WHITE && t[|t| - 1] as int !in WHITE)
      && exists p, q :: AllWhite(p) && AllWhite(q) && s == p + t + q
  {
    SpaceStripIff(s, t);
    forall c: char
      ensures IsSpace(c) <==> c as int in WHITE
    {
      SpaceIff(c);
    }
    forall p
      ensures AllWhite(p) <==> AllSpace(p)
    {
    }
  }

  ghost predicate AllSpace(s: string) {
    forall i :: 0 <= i < |s| ==> IsSpace(s[i])
  }

  lemma SpaceStripIff(s: string, t: string)
    ensures Strip(s) == t <==> Bare(t) && exists p, q :: AllSpace(p) && AllSpace(q) && s == p + t + q
  {
    var left := StripLeft(s);
    var p := StripLeftSplits(s);
    var q := StripRightSplits(left);
    assert s == p + Strip(s) + q;
    forall p', q' | Bare(t) && AllSpace(p') && AllSpace(q') && s == p' + t + q'
      ensures Strip(s) == t
    {
      SpaceIsStripped(p', t, q');
    }
  }

  lemma {:induction false} StripLeftSplits(s: string) returns (p: string)
    ensures AllSpace(p) && s == p + StripLeft(s)
    ensures StripLeft(s) != "" ==> !IsSpace(StripLeft(s)[0])
  {
    p := "";
    if s != "" && IsSpace(s[0]) {
      var rest := StripLeftSplits(s[1..]);
      p := [s[0]] + rest;
    }
  }

  lemma {:induction false} StripRightSplits(s: string) returns (q: string)
    requires s != "" ==> !IsSpace(s[0])
    ensures AllSpace(q) && s == StripRight(s) + q && Bare(StripRight(s))
  {
    q := "";
    if s != "" && IsSpace(s[|s| - 1]) {
      var front := s[..|s| - 1];
      var rest := StripRightSplits(front);
      q := rest + [s[|s| - 1]];
      assert s == front + [s[|s| - 1]];
    }
  }

  lemma {:induction false} SpaceIsStripped(p: string, t: string, q: string)
    requires AllSpace(p) && AllSpace(q) && Bare(t)
    ensures Strip(p + t + q) == t
    decreases |p| + |q|
  {
    var s := p + t + q;
    if p != "" {
      assert s[1..] == p[1..] + t + q;
      SpaceIsStripped(p[1..], t, q);
    } else if t == "" {
      StripsToNothing(q);
      assert s == q;
    } else {
      assert s == t + q;
      StripsToFront(t, q);
    }
  }

  lemma {:induction false} StripsToNothing(q: string)
    requires AllSpace(q)
    ensures StripLeft(q) == ""
  {
    if q != "" {
      StripsToNothing(q[1..]);
    }
  }

  lemma {:induction false} StripsToFront(t: string, q: string)
    requires AllSpace(q) && t != "" && Bare(t)
    ensures StripRight(t + q) == t
  {
    if q == "" {
      assert t + q == t;
    } else {
      assert (t + q)[..|t + q| - 1] == t + q[..|q| - 1];
      StripsToFront(t, q[..|q| - 1]);
    }
  }
}
