/** Small vocabulary shared by the models: optional values, results, and text helpers. */
module Common {
  datatype Option<+T> = None | Some(value: T)

  datatype Result<+T> = Ok(value: T) | Err(reason: string)

  predicate StartsWith(s: string, prefix: string) {
    |prefix| <= |s| && s[..|prefix|] == prefix
  }

  /** White space as JavaScript's `trim` and `\s` see it. */
  predicate IsJsSpace(c: char) {
    var n := c as int;
    9 <= n <= 13 || n == 32 || n == 160 || n == 5760 || 8192 <= n <= 8202
    || n == 8232 || n == 8233 || n == 8239 || n == 8287 || n == 12288 || n == 65279
  }

  /** The code points that ECMAScript counts as white space or line terminators. */
  const JS_WHITE: set<int> := {
    9, 10, 11, 12, 13, 32, 160, 5760, 8192, 8193, 8194, 8195, 8196, 8197, 8198, 8199, 8200, 8201, 8202, 8232, 8233,
    8239, 8287, 12288, 65279}

  lemma JsSpaceIff(c: char)
    ensures IsJsSpace(c) <==> c as int in JS_WHITE
  {
  }

  function DigitChar(d: nat): (c: char)
    requires d < 10
    ensures '0' <= c <= '9'
  {
    '0' + d as char
  }

  predicate IsDigit(c: char) {
    '0' <= c <= '9'
  }

  function DigitValue(c: char): (d: nat)
    requires IsDigit(c)
    ensures d < 10
  {
    (c - '0') as nat
  }

  /** The decimal numeral of `n`, as `str(n)` prints it. */
  function Decimal(n: nat): (s: string)
    ensures |s| > 0 && forall i :: 0 <= i < |s| ==> IsDigit(s[i])
    ensures s[0] == '0' ==> n == 0
    ensures n == 0 ==> s == "0"
  {
    if n < 10 then [DigitChar(n)] else Decimal(n / 10) + [DigitChar(n % 10)]
  }

  /** What `int(s)` reads from a string of digits. */
  function ReadDecimal(s: string): (n: nat)
    requires forall i :: 0 <= i < |s| ==> IsDigit(s[i])
  {
    if s == "" then 0 else 10 * ReadDecimal(s[..|s| - 1]) + DigitValue(s[|s| - 1])
  }

  lemma {:induction false} ReadDecimalOfDecimal(n: nat)
    ensures ReadDecimal(Decimal(n)) == n
  {
    if n < 10 {
      assert Decimal(n)[..0] == "";
    } else {
      ReadDecimalOfDecimal(n / 10);
      assert Decimal(n)[..|Decimal(n)| - 1] == Decimal(n / 10);
    }
  }

  lemma DigitRoundTrip(c: char)
    requires IsDigit(c)
    ensures DigitChar(DigitValue(c)) == c
  {
  }

  /** A numeral without a superfluous leading zero is the one `Decimal` prints. */
  lemma {:induction false} DecimalOfReadDecimal(s: string)
    requires |s| > 0 && forall i :: 0 <= i < |s| ==> IsDigit(s[i])
    requires s[0] == '0' ==> |s| == 1
    ensures Decimal(ReadDecimal(s)) == s
  {
    var front, last := s[..|s| - 1], s[|s| - 1];
    var high, low := ReadDecimal(front), DigitValue(last);
    assert s == front + [last];
    DigitRoundTrip(last);
    assert ReadDecimal(s) == 10 * high + low;
    if |s| == 1 {
      assert front == "";
    } else {
      DecimalOfReadDecimal(front);
      ReadPositive(front);
      assert (10 * high + low) / 10 == high && (10 * high + low) % 10 == low;
    }
  }

  lemma {:induction false} ReadPositive(s: string)
    requires |s| > 0 && forall i :: 0 <= i < |s| ==> IsDigit(s[i])
    requires s[0] != '0'
    ensures ReadDecimal(s) > 0
  {
    if |s| > 1 {
      ReadPositive(s[..|s| - 1]);
    }
  }
}

/** JSON values as `json.loads` returns them, and Python's equality on them. */
module Json {
  datatype Json =
    | Null
    | Bool(b: bool)
    | Num(n: real)
    | Str(s: string)
    | Arr(items: seq<Json>)
    | Obj(members: map<string, Json>)

  // Python compares `True == 1` and `False == 0`: a boolean stands for a number.
  function PyForm(j: Json): Json {
    match j
    case Bool(b) => Num(if b then 1.0 else 0.0)
    case Arr(items) => Arr(seq(|items|, i requires 0 <= i < |items| => PyForm(items[i])))
    case Obj(members) => Obj(map k | k in members :: PyForm(members[k]))
    case _ => j
  }

  /** Python's `x == y`. */
  predicate PyEq(x: Json, y: Json) {
    PyForm(x) == PyForm(y)
  }
}
