/**
 * Decoded JSON values as the extraction pipeline sees them after `JSON.parse`,
 * and the two Ruby indexing operations the pipeline applies to them.
 */
module Json {

  /** A JSON number literal, exactly: mantissa * 10^(-exponent). */
  datatype Decimal = Decimal(mantissa: int, exponent: nat)

  datatype JsonVal =
    | JNull
    | JBool(b: bool)
    | JNum(n: Decimal)
    | JStr(s: string)
    | JArr(items: seq<JsonVal>)
    | JObj(fields: map<string, JsonVal>)

  /** `Hash#[]` on a decoded object: exact, case-sensitive key; a missing key reads as nil. */
  function Get(m: map<string, JsonVal>, key: string): JsonVal
  {
    if key in m then m[key] else JNull
  }

  /** Whether `key` occurs as a contiguous piece of `s`. */
  function Occurs(key: string, s: string): bool
    decreases |s|
  {
    |key| <= |s| && (s[..|key|] == key || (|s| > 0 && Occurs(key, s[1..])))
  }

  /** `key` starts at position `i` of `s`: the positional reading of a substring. */
  predicate OccursAtIndex(key: string, s: string, i: int)
  {
    0 <= i <= |s| - |key| && s[i..i + |key|] == key
  }

  /** Every position at which `key` starts is found by `Occurs`. */
  lemma {:induction false} OccursFromIndex(key: string, s: string, i: int)
    requires OccursAtIndex(key, s, i)
    ensures Occurs(key, s)
    decreases i
  {
    if i > 0 {
      assert s[1..][i - 1..i - 1 + |key|] == s[i..i + |key|];
      OccursFromIndex(key, s[1..], i - 1);
    } else {
      assert s[..|key|] == s[0..0 + |key|];
    }
  }

  /** `Occurs` finds only positions at which `key` really starts. */
  lemma {:induction false} IndexFromOccurs(key: string, s: string) returns (i: int)
    requires Occurs(key, s)
    ensures OccursAtIndex(key, s, i)
    decreases |s|
  {
    if s[..|key|] == key {
      i := 0;
      assert s[0..0 + |key|] == s[..|key|];
    } else {
      var j := IndexFromOccurs(key, s[1..]);
      assert s[j + 1..j + 1 + |key|] == s[1..][j..j + |key|];
      i := j + 1;
    }
  }

  /** `Occurs` agrees with the positional definition of a substring, both ways. */
  lemma OccursAt(key: string, s: string)
    ensures Occurs(key, s) <==> exists i :: OccursAtIndex(key, s, i)
  {
    if Occurs(key, s) {
      var i := IndexFromOccurs(key, s);
    }
    forall i | OccursAtIndex(key, s, i)
      ensures Occurs(key, s)
    {
      OccursFromIndex(key, s, i);
    }
  }

  /**
   * `String#[]` with a string argument: the argument itself when it occurs in the
   * receiver, nil otherwise. This is what `item['Quantity']` does when a line item
   * decoded to a JSON string rather than an object.
   */
  function StringIndex(s: string, key: string): (v: JsonVal)
    ensures v == JNull || v == JStr(key)
    ensures v == JStr(key) <==> exists i :: OccursAtIndex(key, s, i)
  {
    OccursAt(key, s);
    if Occurs(key, s) then JStr(key) else JNull
  }

  // ---------------------------------------------------------------------------
  // Reading and writing numbers as text: `String#to_d`, which the decimal cast
  // applies to a string, and `Integer#to_s`, which the string cast applies to a
  // JSON integer.

  predicate IsDigit(c: char)
  {
    '0' <= c <= '9'
  }

  /** The ASCII white space `String#to_d` skips and `blank?` ignores. */
  predicate IsSpace(c: char)
  {
    c == ' ' || 9 <= c as int <= 13
  }

  /** `String#blank?`: empty or white space only. */
  predicate Blank(s: string)
  {
    forall i :: 0 <= i < |s| ==> IsSpace(s[i])
  }

  /** `Object#blank?` of a decoded value: nil, `false`, a white-space string, an empty array or hash. */
  predicate BlankValue(v: JsonVal)
  {
    match v
    case JNull => true
    case JBool(b) => !b
    case JNum(_) => false
    case JStr(s) => Blank(s)
    case JArr(items) => items == []
    case JObj(m) => |m| == 0
  }

  /** `s` without its leading white space. */
  function SkipSpaces(s: string): (t: string)
    ensures |t| <= |s| && t == s[|s| - |t|..]
    ensures t == [] || !IsSpace(t[0])
  {
    if s != [] && IsSpace(s[0]) then SkipSpaces(s[1..]) else s
  }

  lemma SkipNoSpaces(s: string)
    requires s == [] || !IsSpace(s[0])
    ensures SkipSpaces(s) == s
  {
  }

  /** How many digits `s` starts with. */
  function DigitRun(s: string): (n: nat)
    ensures n <= |s|
    ensures forall i :: 0 <= i < n ==> IsDigit(s[i])
    ensures n < |s| ==> !IsDigit(s[n])
  {
    if s != [] && IsDigit(s[0]) then 1 + DigitRun(s[1..]) else 0
  }

  function DigitValue(c: char): nat
  {
    if IsDigit(c) then c as int - '0' as int else 0
  }

  /** The value of a string of decimal digits, most significant first. */
  function DigitsValue(ds: string): nat
  {
    if ds == [] then 0 else 10 * DigitsValue(ds[..|ds| - 1]) + DigitValue(ds[|ds| - 1])
  }

  /** The digits of the number `u` starts with, fraction included, and how many of them follow the point. */
  function UnsignedPart(u: string): (string, nat)
  {
    var whole := u[..DigitRun(u)];
    var rest := u[DigitRun(u)..];
    var frac := if rest != [] && rest[0] == '.' then rest[1..][..DigitRun(rest[1..])] else [];
    (whole + frac, |frac|)
  }

  /** The number an unsigned numeral `u` starts with. */
  function Unsigned(u: string): Decimal
  {
    Decimal(DigitsValue(UnsignedPart(u).0), UnsignedPart(u).1)
  }

  /** The number `t`, which starts with an optional sign, starts with. */
  function Signed(t: string): Decimal
  {
    if t != [] && t[0] == '-' then Decimal(-Unsigned(t[1..]).mantissa, Unsigned(t[1..]).exponent)
    else if t != [] && t[0] == '+' then Unsigned(t[1..])
    else Unsigned(t)
  }

  lemma SignedDigit(t: string)
    requires t != [] && IsDigit(t[0])
    ensures Signed(t) == Unsigned(t)
  {
  }

  lemma SignedMinus(t: string)
    requires t != [] && t[0] == '-'
    ensures Signed(t) == Decimal(-Unsigned(t[1..]).mantissa, Unsigned(t[1..]).exponent)
  {
  }

  /**
   * `String#to_d`: after leading white space, an optional sign, a run of digits and
   * an optional fraction; whatever follows is ignored, and a string that does not
   * start with a number reads as 0.
   */
  function ToD(s: string): Decimal
  {
    Signed(SkipSpaces(s))
  }

  /** A string with no digit in it reads as 0. */
  lemma ToDWithoutDigits(s: string)
    requires forall i :: 0 <= i < |s| ==> !IsDigit(s[i])
    ensures ToD(s) == Decimal(0, 0)
  {
    var t := SkipSpaces(s);
    var u := if t != [] && (t[0] == '-' || t[0] == '+') then t[1..] else t;
    forall i | 0 <= i < |u|
      ensures !IsDigit(u[i])
    {
      if t != [] && (t[0] == '-' || t[0] == '+') {
        assert u[i] == s[|s| - |t| + i + 1];
      } else {
        assert u[i] == s[|s| - |t| + i];
      }
    }
    UnsignedWithoutDigits(u);
  }

  lemma UnsignedWithoutDigits(u: string)
    requires u == [] || !IsDigit(u[0])
    requires |u| > 1 ==> !IsDigit(u[1])
    ensures Unsigned(u) == Decimal(0, 0)
  {
    assert DigitRun(u) == 0;
    var rest := u[DigitRun(u)..];
    assert rest == u;
    if rest != [] && rest[0] == '.' {
      assert DigitRun(rest[1..]) == 0;
    }
  }

  /** A string that starts with anything but white space, a sign, a digit or a point reads as 0. */
  lemma ToDOfWord(s: string)
    requires s != [] && !IsSpace(s[0]) && !IsDigit(s[0]) && s[0] != '-' && s[0] != '+' && s[0] != '.'
    ensures !Blank(s)
    ensures ToD(s) == Decimal(0, 0)
  {
    SkipNoSpaces(s);
    assert Signed(s) == Unsigned(s);
    assert DigitRun(s) == 0;
    assert s[DigitRun(s)..] == s;
  }

  /** `Integer#to_s` of a natural number. */
  function Digits(n: nat): (ds: string)
    ensures ds != [] && forall i :: 0 <= i < |ds| ==> IsDigit(ds[i])
  {
    if n < 10 then [('0' as int + n) as char] else Digits(n / 10) + [('0' as int + n % 10) as char]
  }

  /** `Integer#to_s`. */
  function IntText(m: int): string
  {
    if m < 0 then "-" + Digits(-m) else Digits(m)
  }

  lemma {:induction false} DigitsValueOf(n: nat)
    ensures DigitsValue(Digits(n)) == n
    decreases n
  {
    if n >= 10 {
      var ds := Digits(n);
      assert ds[..|ds| - 1] == Digits(n / 10);
      DigitsValueOf(n / 10);
    }
  }

  lemma {:induction false} DigitRunOf(ds: string, rest: string)
    requires forall i :: 0 <= i < |ds| ==> IsDigit(ds[i])
    requires rest == [] || !IsDigit(rest[0])
    ensures DigitRun(ds + rest) == |ds|
    decreases |ds|
  {
    if ds != [] {
      assert (ds + rest)[1..] == ds[1..] + rest;
      DigitRunOf(ds[1..], rest);
    }
  }

  /** Digits followed by neither a digit nor a point: the number is those digits. */
  lemma UnsignedPartOf(ds: string, rest: string)
    requires forall i :: 0 <= i < |ds| ==> IsDigit(ds[i])
    requires rest == [] || (!IsDigit(rest[0]) && rest[0] != '.')
    ensures UnsignedPart(ds + rest) == (ds, 0)
    ensures Unsigned(ds + rest) == Decimal(DigitsValue(ds), 0)
  {
    var u := ds + rest;
    DigitRunOf(ds, rest);
    assert u[..DigitRun(u)] == ds;
    assert u[DigitRun(u)..] == rest;
    assert ds + [] == ds;
  }

  /** Digits followed by neither a digit nor a point read as their value. */
  lemma ToDOfDigits(ds: string, rest: string)
    requires ds != [] && forall i :: 0 <= i < |ds| ==> IsDigit(ds[i])
    requires rest == [] || (!IsDigit(rest[0]) && rest[0] != '.')
    ensures ToD(ds + rest) == Decimal(DigitsValue(ds), 0)
  {
    var s := ds + rest;
    assert s[0] == ds[0];
    SkipNoSpaces(s);
    SignedDigit(s);
    UnsignedPartOf(ds, rest);
  }

  /** The same, after a minus sign. */
  lemma ToDOfNegative(ds: string, rest: string)
    requires ds != [] && forall i :: 0 <= i < |ds| ==> IsDigit(ds[i])
    requires rest == [] || (!IsDigit(rest[0]) && rest[0] != '.')
    ensures ToD("-" + ds + rest) == Decimal(-(DigitsValue(ds) as int), 0)
  {
    UnsignedPartOf(ds, rest);
    ToDMinus(ds + rest);
    AppendAssoc("-", ds, rest);
  }

  lemma AppendAssoc(a: string, b: string, c: string)
    ensures a + b + c == a + (b + c)
  {
  }

  /** A minus sign negates what follows it. */
  lemma ToDMinus(u: string)
    ensures ToD("-" + u) == Decimal(-Unsigned(u).mantissa, Unsigned(u).exponent)
  {
    var s := "-" + u;
    assert s[1..] == u;
    SkipNoSpaces(s);
    SignedMinus(s);
  }

  /**
   * An integer written by `Integer#to_s` reads back as itself with `String#to_d`,
   * whatever follows it that is neither a digit nor a decimal point.
   */
  lemma IntTextRoundTrip(m: int, rest: string)
    requires rest == [] || (!IsDigit(rest[0]) && rest[0] != '.')
    ensures ToD(IntText(m) + rest) == Decimal(m, 0)
  {
    if m < 0 {
      DigitsValueOf(-m);
      ToDOfNegative(Digits(-m), rest);
    } else {
      DigitsValueOf(m);
      ToDOfDigits(Digits(m), rest);
    }
  }
}
