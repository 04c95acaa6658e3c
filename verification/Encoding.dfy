// How the program writes values into one string so that they can be read back
// in one way only: decimals, and strings with their length in front.
module Encoding {

  datatype Option<+T> = None | Some(value: T)

  function Digit(d: nat): char
    requires d < 10
  {
    "0123456789"[d]
  }

  // strconv.Itoa and strconv.FormatUint.
  function Itoa(n: nat): (r: string)
    ensures |r| > 0
  {
    if n < 10 then [Digit(n)] else Itoa(n / 10) + [Digit(n % 10)]
  }

  // strconv.FormatInt.
  function Decimal(n: int): string {
    if n < 0 then "-" + Itoa(-n) else Itoa(n)
  }

  predicate IsDigit(c: char) {
    '0' <= c <= '9'
  }

  lemma {:induction false} ItoaDigits(n: nat)
    ensures forall i :: 0 <= i < |Itoa(n)| ==> IsDigit(Itoa(n)[i])
  {
    if n >= 10 { ItoaDigits(n / 10); }
  }

  lemma DecimalAlphabet(n: int, c: char)
    requires c in Decimal(n)
    ensures IsDigit(c) || c == '-'
  {
    ItoaDigits(if n < 0 then -n else n);
  }

  lemma {:induction false} ItoaInjective(m: nat, n: nat)
    requires Itoa(m) == Itoa(n)
    ensures m == n
  {
    if m >= 10 && n >= 10 {
      assert Itoa(m / 10) == Itoa(m)[..|Itoa(m)| - 1] == Itoa(n / 10);
      ItoaInjective(m / 10, n / 10);
    }
  }

  lemma DecimalInjective(m: int, n: int)
    requires Decimal(m) == Decimal(n)
    ensures m == n
  {
    ItoaDigits(if m < 0 then -m else m);
    ItoaDigits(if n < 0 then -n else n);
    assert m < 0 <==> Decimal(m)[0] == '-';
    assert n < 0 <==> Decimal(n)[0] == '-';
    if m < 0 {
      assert Itoa(-m) == Decimal(m)[1..] == Itoa(-n);
      ItoaInjective(-m, -n);
    } else {
      ItoaInjective(m, n);
    }
  }

  lemma NotShorter(a: string, r: string, b: string, s: string, sep: char)
    requires sep !in b && a + [sep] + r == b + [sep] + s
    ensures |a| >= |b|
  {
    assert (a + [sep] + r)[|a|] == sep;
    assert forall i :: 0 <= i < |b| ==> (b + [sep] + s)[i] == b[i];
  }

  // The first separator settles where what stands before it ends.
  lemma SplitAt(a: string, r: string, b: string, s: string, sep: char)
    requires sep !in a && sep !in b && a + [sep] + r == b + [sep] + s
    ensures a == b && r == s
  {
    NotShorter(a, r, b, s, sep);
    NotShorter(b, s, a, r, sep);
    var whole := a + [sep] + r;
    assert a == whole[..|a|] && b == whole[..|a|];
    assert r == whole[|a| + 1..] && s == whole[|a| + 1..];
  }

  lemma DecimalSplit(m: int, r: string, n: int, s: string, sep: char)
    requires !IsDigit(sep) && sep != '-' && Decimal(m) + [sep] + r == Decimal(n) + [sep] + s
    ensures m == n && r == s
  {
    if sep in Decimal(m) { DecimalAlphabet(m, sep); }
    if sep in Decimal(n) { DecimalAlphabet(n, sep); }
    SplitAt(Decimal(m), r, Decimal(n), s, sep);
    DecimalInjective(m, n);
  }

  // Length, colon, bytes.
  function Prefixed(s: string): string {
    Decimal(|s|) + ":" + s
  }

  lemma PrefixedSplit(s: string, r: string, t: string, q: string)
    requires Prefixed(s) + r == Prefixed(t) + q
    ensures s == t && r == q
  {
    hide Decimal;
    assert Prefixed(s) + r == Decimal(|s|) + [':'] + (s + r);
    assert Prefixed(t) + q == Decimal(|t|) + [':'] + (t + q);
    DecimalSplit(|s|, s + r, |t|, t + q, ':');
    assert s == (s + r)[..|s|] && t == (t + q)[..|t|];
    assert r == (s + r)[|s|..] && q == (t + q)[|t|..];
  }

  function AllPrefixed(list: seq<string>): string {
    if list == [] then "" else Prefixed(list[0]) + AllPrefixed(list[1..])
  }

  lemma {:induction false} AllPrefixedSplit(a: seq<string>, r: string, b: seq<string>, q: string)
    requires |a| == |b| && AllPrefixed(a) + r == AllPrefixed(b) + q
    ensures a == b && r == q
  {
    hide Prefixed;
    if a == [] {
      assert AllPrefixed(a) + r == r && AllPrefixed(b) + q == q;
    } else {
      assert AllPrefixed(a) + r == Prefixed(a[0]) + (AllPrefixed(a[1..]) + r);
      assert AllPrefixed(b) + q == Prefixed(b[0]) + (AllPrefixed(b[1..]) + q);
      PrefixedSplit(a[0], AllPrefixed(a[1..]) + r, b[0], AllPrefixed(b[1..]) + q);
      AllPrefixedSplit(a[1..], r, b[1..], q);
      assert a == [a[0]] + a[1..] && b == [b[0]] + b[1..];
    }
  }
}
