/** Positional numerals: the free-length decimal and lower-case hexadecimal digits the
    printers write, and big-endian digit sequences of a fixed length (address octets,
    IPv6 groups, hexadecimal index keys). */
module Numerals {
  import opened Text

  function Pow(b: nat, k: nat): (p: nat)
    ensures b > 0 ==> p > 0
  {
    if k == 0 then 1 else b * Pow(b, k - 1)
  }

  function DigitChar(d: nat): char
    requires d < 16
  {
    if d < 10 then '0' + d as char else 'a' + (d - 10) as char
  }

  function UpperDigitChar(d: nat): char
    requires d < 16
  {
    if d < 10 then '0' + d as char else 'A' + (d - 10) as char
  }

  /** The value of a digit in either case; 0 for a character that is no digit. */
  function DigitValue(c: char): (d: nat)
    ensures d < 16
  {
    if IsDigit(c) then (c - '0') as nat
    else if 'a' <= c <= 'f' then (c - 'a') as nat + 10
    else if 'A' <= c <= 'F' then (c - 'A') as nat + 10
    else 0
  }

  lemma Division(n: nat, base: nat)
    requires base >= 1
    ensures n == (n / base) * base + n % base
    ensures 0 <= n % base < base
    ensures base >= 2 && n >= base ==> 0 < n / base < n
    ensures n < base ==> n / base == 0 && n % base == n
  {
    var q := n / base;
    if base >= 2 {
      assert q <= 0 || q * base >= 2 * q;
    }
  }

  /** Dividing by the base drops one digit. */
  lemma DropDigit(n: nat, base: nat, k: nat)
    requires base >= 2 && n < Pow(base, k) && k >= 1
    ensures n / base < Pow(base, k - 1)
  {
    Division(n, base);
    if n / base >= Pow(base, k - 1) {
      MulMono(Pow(base, k - 1), n / base, base);
    }
  }

  lemma MulMono(a: nat, b: nat, c: nat)
    requires a <= b
    ensures c * a <= c * b
  {
    assert c * b - c * a == c * (b - a);
  }

  /** `n` written in `base`, without leading zeros. */
  function Digits(n: nat, base: nat): (s: string)
    requires 2 <= base <= 16
    ensures |s| >= 1
    ensures AllIn(s, Hex)
    ensures base <= 10 ==> AllIn(s, Digit)
    ensures s[0] == '0' ==> n == 0
    ensures n == 0 ==> s == "0"
  {
    Division(n, base);
    if n < base then [DigitChar(n)]
    else Digits(n / base, base) + [DigitChar(n % base)]
  }

  function Value(s: string, base: nat): nat {
    if s == [] then 0
    else Value(s[..|s| - 1], base) * base + DigitValue(s[|s| - 1])
  }

  lemma {:induction false} ValueOfDigits(n: nat, base: nat)
    requires 2 <= base <= 16
    ensures Value(Digits(n, base), base) == n
  {
    Division(n, base);
    var s := Digits(n, base);
    if n < base {
      assert Value([], base) == 0;
      assert s[..0] == [];
    } else {
      ValueOfDigits(n / base, base);
      assert s[..|s| - 1] == Digits(n / base, base);
    }
  }

  lemma {:induction false} DigitsLength(n: nat, base: nat, k: nat)
    requires 2 <= base <= 16 && k >= 1 && n < Pow(base, k)
    ensures |Digits(n, base)| <= k
  {
    Division(n, base);
    if n >= base {
      assert k > 1 by {
        assert Pow(base, 0) == 1;
        assert Pow(base, 1) == base * Pow(base, 0);
      }
      DropDigit(n, base, k);
      DigitsLength(n / base, base, k - 1);
    }
  }

  /** The `k` big-endian digits of `n` in `base`. */
  function Fixed(n: nat, base: nat, k: nat): (ds: seq<nat>)
    requires base >= 2
    ensures |ds| == k
    ensures forall i | 0 <= i < k :: ds[i] < base
  {
    Division(n, base);
    if k == 0 then [] else Fixed(n / base, base, k - 1) + [n % base]
  }

  function Unfixed(ds: seq<nat>, base: nat): nat {
    if ds == [] then 0 else Unfixed(ds[..|ds| - 1], base) * base + ds[|ds| - 1]
  }

  lemma {:induction false} UnfixedOfFixed(n: nat, base: nat, k: nat)
    requires base >= 2 && n < Pow(base, k)
    ensures Unfixed(Fixed(n, base, k), base) == n
  {
    if k > 0 {
      Division(n, base);
      DropDigit(n, base, k);
      UnfixedOfFixed(n / base, base, k - 1);
      var ds := Fixed(n, base, k);
      assert ds[..k - 1] == Fixed(n / base, base, k - 1);
    }
  }

  lemma {:induction false} PowSum(b: nat, j: nat, k: nat)
    ensures Pow(b, j + k) == Pow(b, j) * Pow(b, k)
  {
    if j > 0 {
      PowSum(b, j - 1, k);
      PowStep(b, j);
      PowStep(b, j + k);
      hide Pow;
      Associates(b, Pow(b, j - 1), Pow(b, k));
    }
  }

  lemma PowStep(b: nat, k: nat)
    requires k > 0
    ensures Pow(b, k) == b * Pow(b, k - 1)
  {
  }

  lemma Associates(a: nat, b: nat, c: nat)
    ensures a * (b * c) == (a * b) * c
  {
  }

  /** A power of a power of two is a power of two. */
  lemma {:induction false} PowOfPow(j: nat, k: nat)
    ensures Pow(Pow(2, j), k) == Pow(2, j * k)
  {
    if k > 0 {
      PowOfPow(j, k - 1);
      assert j * k == j + j * (k - 1);
      PowSum(2, j, j * (k - 1));
    }
  }
}
