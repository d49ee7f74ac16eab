/**
 Decimal printing as Go's fmt and time packages do it, and the byte-wise string
 order that SQLite's default collation uses on the printed text.
 */
module Decimal {

  function Digit(d: nat): (c: char)
    requires d < 10
  {
    '0' + d as char
  }

  /** The decimal digits of n, without leading zeros. */
  function Print(n: nat): (s: string)
    ensures |s| > 0
    ensures forall i :: 0 <= i < |s| ==> '0' <= s[i] <= '9'
  {
    if n < 10 then [Digit(n)] else Print(n / 10) + [Digit(n % 10)]
  }

  /** n zero-padded to w digits; a number that does not fit takes more digits. */
  function Pad(n: nat, w: nat): (s: string)
    decreases w
  {
    if w == 0 then (if n == 0 then "" else Print(n)) else Pad(n / 10, w - 1) + [Digit(n % 10)]
  }

  function Pow10(w: nat): (p: nat)
    ensures p >= 1
  {
    if w == 0 then 1 else 10 * Pow10(w - 1)
  }

  lemma {:induction false} PrintInjective(m: nat, n: nat)
    requires Print(m) == Print(n)
    ensures m == n
  {
    var s, t := Print(m), Print(n);
    if m < 10 || n < 10 {
      assert |s| == 1 <==> m < 10;
      assert |t| == 1 <==> n < 10;
      assert s[0] == t[0];
    } else {
      assert s[..|s| - 1] == Print(m / 10);
      assert t[..|t| - 1] == Print(n / 10);
      PrintInjective(m / 10, n / 10);
      assert s[|s| - 1] == t[|t| - 1];
    }
  }

  /** Byte-wise order: the first difference decides, a proper prefix is smaller. */
  predicate StrLess(s: string, t: string)
  {
    if t == "" then false
    else if s == "" then true
    else s[0] < t[0] || (s[0] == t[0] && StrLess(s[1..], t[1..]))
  }

  lemma {:induction false} LessConcat(a: string, b: string, c: string, d: string)
    requires |a| == |b|
    ensures StrLess(a + c, b + d) <==> StrLess(a, b) || (a == b && StrLess(c, d))
  {
    if a == "" {
      assert a + c == c && b + d == d;
    } else {
      assert (a + c)[1..] == a[1..] + c;
      assert (b + d)[1..] == b[1..] + d;
      LessConcat(a[1..], b[1..], c, d);
      assert a == [a[0]] + a[1..];
      assert b == [b[0]] + b[1..];
    }
  }

  lemma {:induction false} LessTotal(s: string, t: string)
    ensures StrLess(s, t) || s == t || StrLess(t, s)
  {
    if s != "" && t != "" && s[0] == t[0] {
      LessTotal(s[1..], t[1..]);
      assert s == [s[0]] + s[1..] && t == [t[0]] + t[1..];
    }
  }

  lemma {:induction false} LessTransitive(s: string, t: string, u: string)
    requires StrLess(s, t) && StrLess(t, u)
    ensures StrLess(s, u)
  {
    if s != "" && s[0] == t[0] == u[0] {
      LessTransitive(s[1..], t[1..], u[1..]);
    }
  }

  lemma {:induction false} PadWidth(n: nat, w: nat)
    requires n < Pow10(w)
    ensures |Pad(n, w)| == w
  {
    if w > 0 {
      PadWidth(n / 10, w - 1);
    }
  }

  /** On numbers that fit the width, padded text compares as the numbers do. */
  lemma {:induction false} PadOrder(m: nat, n: nat, w: nat)
    requires m < Pow10(w) && n < Pow10(w)
    ensures StrLess(Pad(m, w), Pad(n, w)) <==> m < n
    ensures Pad(m, w) == Pad(n, w) <==> m == n
  {
    if w > 0 {
      var a, b := Pad(m / 10, w - 1), Pad(n / 10, w - 1);
      var x, y := [Digit(m % 10)], [Digit(n % 10)];
      PadWidth(m / 10, w - 1);
      PadWidth(n / 10, w - 1);
      PadOrder(m / 10, n / 10, w - 1);
      LessConcat(a, b, x, y);
      assert x[1..] == "" && y[1..] == "";
      assert StrLess(x, y) <==> m % 10 < n % 10;
      assert (a + x)[..w - 1] == a && (b + y)[..w - 1] == b;
      assert (a + x)[w - 1] == x[0] && (b + y)[w - 1] == y[0];
    }
  }
}
