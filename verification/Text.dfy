/**
 Decimal numerals and dot-separated names: the string operations (`str`, `int`,
 `str.split`, `str.join`, `str.zfill`) that the charm uses to build and read identifiers.
 */
module Text {

  datatype Option<+T> = None | Some(value: T)

  predicate IsDigit(c: char) { '0' <= c <= '9' }

  predicate AllDigits(s: string) { forall i :: 0 <= i < |s| ==> IsDigit(s[i]) }

  function Digit(d: nat): (c: char)
    requires d < 10
    ensures IsDigit(c) && (c as int - '0' as int) == d
  {
    ('0' as int + d) as char
  }

  /** `str(n)`. */
  function Decimal(n: nat): (s: string)
    ensures s != [] && AllDigits(s)
  {
    if n < 10 then [Digit(n)] else Decimal(n / 10) + [Digit(n % 10)]
  }

  /** The number a digit string denotes; leading zeros are allowed, as in `int("007")`. */
  function Value(s: string): nat
    requires AllDigits(s)
  {
    if s == [] then 0 else 10 * Value(s[..|s| - 1]) + (s[|s| - 1] as int - '0' as int)
  }

  lemma {:induction false} ValueOfDecimal(n: nat)
    ensures Value(Decimal(n)) == n
  {
    if n >= 10 {
      ValueOfDecimal(n / 10);
      assert Decimal(n)[..|Decimal(n)| - 1] == Decimal(n / 10);
    }
  }

  /** Appending a digit to the numeral of a positive number. */
  lemma DecimalAppend(n: nat, d: nat)
    requires n >= 1 && d < 10
    ensures Decimal(10 * n + d) == Decimal(n) + [Digit(d)]
  {
    assert (10 * n + d) / 10 == n && (10 * n + d) % 10 == d;
  }

  lemma DecimalInjective(m: nat, n: nat)
    requires Decimal(m) == Decimal(n)
    ensures m == n
  {
    ValueOfDecimal(m);
    ValueOfDecimal(n);
  }

  /** White space that `int` ignores around a number. */
  predicate IsBlank(c: char) { c == ' ' || '\U{9}' <= c <= '\U{D}' || '\U{1C}' <= c <= '\U{1F}' }

  function StripLeft(s: string): string { if s != [] && IsBlank(s[0]) then StripLeft(s[1..]) else s }

  function StripRight(s: string): string {
    if s != [] && IsBlank(s[|s| - 1]) then StripRight(s[..|s| - 1]) else s
  }

  /** Digits, with single underscores allowed between them. */
  function Unsigned(s: string): Option<nat> {
    var n := |s| - 1;
    if s == [] || !IsDigit(s[n]) then None
    else
      var d := s[n] as int - '0' as int;
      if n == 0 then Some(d)
      else
        var high := Unsigned(if s[n - 1] == '_' then s[..n - 1] else s[..n]);
        if high.Some? then Some(10 * high.value + d) else None
  }

  function Signed(size: Option<nat>, negative: bool): Option<int> {
    match size
    case None => None
    case Some(n) => Some(if negative then 0 - n else n)
  }

  /** `int(s)`; `None` when it raises. */
  function ParseInt(s: string): Option<int> {
    var t := StripRight(StripLeft(s));
    if t != [] && (t[0] == '-' || t[0] == '+') then Signed(Unsigned(t[1..]), t[0] == '-')
    else Signed(Unsigned(t), false)
  }

  lemma {:induction false} UnsignedOfDecimal(n: nat)
    ensures Unsigned(Decimal(n)) == Some(n)
  {
    if n >= 10 {
      UnsignedOfDecimal(n / 10);
      var s := Decimal(n);
      assert s[..|s| - 1] == Decimal(n / 10) && IsDigit(s[|s| - 2]);
    }
  }

  lemma ParseOfDecimal(n: nat)
    ensures ParseInt(Decimal(n)) == Some(n)
  {
    var s := Decimal(n);
    assert IsDigit(s[0]) && IsDigit(s[|s| - 1]);
    UnsignedOfDecimal(n);
  }

  /** Signs are read, blanks around a number are not, and no number is no number. */
  lemma ParseSigned(n: nat)
    ensures ParseInt("-" + Decimal(n)) == Some(0 - n) && ParseInt("+" + Decimal(n)) == Some(n)
  {
    var d := Decimal(n);
    UnsignedOfDecimal(n);
    assert IsDigit(d[|d| - 1]);
    assert ("-" + d)[1..] == d && ("+" + d)[1..] == d;
    assert ("-" + d)[|d|] == d[|d| - 1] && ("+" + d)[|d|] == d[|d| - 1];
  }

  lemma ParseBlank(s: string)
    ensures ParseInt(" " + s) == ParseInt(s) && ParseInt("") == None
  {
    assert (" " + s)[1..] == s;
  }

  function Pow10(k: nat): (p: nat)
    ensures p >= 1
  {
    if k == 0 then 1 else 10 * Pow10(k - 1)
  }

  /** A number has at most `k` digits exactly when it is below 10^k. */
  lemma {:induction false} DecimalLength(n: nat, k: nat)
    requires k >= 1
    ensures |Decimal(n)| <= k <==> n < Pow10(k)
  {
    if k == 1 {
      assert Pow10(1) == 10 * Pow10(0);
    } else if n < 10 {
      assert Pow10(k) == 10 * Pow10(k - 1) && Pow10(k - 1) >= 1;
    } else {
      DecimalLength(n / 10, k - 1);
    }
  }

  /** `s.zfill(width)` on a digit string. */
  function ZeroFill(s: string, width: nat): (r: string)
    requires AllDigits(s)
    ensures AllDigits(r) && |r| == (if |s| < width then width else |s|)
    decreases width - |s|
  {
    if |s| < width then ZeroFill(['0'] + s, width) else s
  }

  lemma {:induction false} ValueOfLeadingZero(s: string)
    requires AllDigits(s)
    ensures Value(['0'] + s) == Value(s)
  {
    if s == [] {
      assert (['0'] + s)[..0] == [];
    } else {
      ValueOfLeadingZero(s[..|s| - 1]);
      assert (['0'] + s)[..|s|] == ['0'] + s[..|s| - 1];
    }
  }

  lemma {:induction false} ValueOfZeroFill(s: string, width: nat)
    requires AllDigits(s)
    ensures Value(ZeroFill(s, width)) == Value(s)
    decreases width - |s|
  {
    if |s| < width {
      ValueOfLeadingZero(s);
      ValueOfZeroFill(['0'] + s, width);
    }
  }

  predicate Free(s: string, c: char) { forall i :: 0 <= i < |s| ==> s[i] != c }

  /** `s.split(".")`: the pieces between dots, at least one of them. */
  function Split(s: string): (parts: seq<string>)
    ensures parts != []
  {
    if s == [] then [[]]
    else
      var rest := Split(s[1..]);
      if s[0] == '.' then [[]] + rest else [[s[0]] + rest[0]] + rest[1..]
  }

  /** `".".join(parts)`. */
  function Join(parts: seq<string>): string {
    if parts == [] then []
    else if |parts| == 1 then parts[0]
    else parts[0] + "." + Join(parts[1..])
  }

  lemma {:induction false} JoinOfSplit(s: string)
    ensures Join(Split(s)) == s
  {
    if s != [] {
      JoinOfSplit(s[1..]);
      var rest := Split(s[1..]);
      if s[0] == '.' {
        assert Split(s)[1..] == rest;
      } else if |rest| > 1 {
        assert Split(s)[1..] == rest[1..];
      }
    }
  }

  lemma {:induction false} SplitOfPiece(s: string)
    requires Free(s, '.')
    ensures Split(s) == [s]
  {
    if s != [] {
      SplitOfPiece(s[1..]);
      assert s[0] != '.' && s == [s[0]] + s[1..];
    }
  }

  /** Splitting distributes over a dot placed between two texts. */
  lemma {:induction false} SplitAtDot(a: string, b: string)
    ensures Split(a + "." + b) == Split(a) + Split(b)
  {
    var s := a + "." + b;
    if a == [] {
      assert s[1..] == b;
    } else {
      assert s[1..] == a[1..] + "." + b;
      SplitAtDot(a[1..], b);
    }
  }
}
