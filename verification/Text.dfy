/** Decimal formatting and the few string facts the other modules rely on. */
module Text {
  datatype Option<+T> = None | Some(value: T)

  predicate IsDigit(c: char) {
    '0' <= c <= '9'
  }

  function DigitChar(d: nat): (c: char)
    requires d < 10
    ensures IsDigit(c) && c as int - '0' as int == d
  {
    ['0', '1', '2', '3', '4', '5', '6', '7', '8', '9'][d]
  }

  /** Decimal digits of n, without leading zeros. */
  function Digits(n: nat): (s: string)
    ensures |s| >= 1
  {
    if n < 10 then [DigitChar(n)] else Digits(n / 10) + [DigitChar(n % 10)]
  }

  function Zeros(n: nat): string {
    if n == 0 then "" else "0" + Zeros(n - 1)
  }

  /** Zero-padded to at least `width` characters; longer numbers keep all their digits. */
  function Padded(n: nat, width: nat): string {
    var s := Digits(n);
    if |s| >= width then s else Zeros(width - |s|) + s
  }

  /** The number a string of digits denotes. */
  function Value(s: string): int {
    if s == "" then 0 else 10 * Value(s[..|s| - 1]) + (s[|s| - 1] as int - '0' as int)
  }

  predicate AllDigits(s: string) {
    forall i :: 0 <= i < |s| ==> IsDigit(s[i])
  }

  lemma {:induction false} ValueOfDigits(n: nat)
    ensures Value(Digits(n)) == n && AllDigits(Digits(n))
  {
    if n < 10 {
      assert Digits(n)[..0] == "";
    } else {
      ValueOfDigits(n / 10);
      assert Digits(n)[..|Digits(n)| - 1] == Digits(n / 10);
    }
  }

  lemma {:induction false} ValueIgnoresZeros(k: nat, s: string)
    requires AllDigits(s)
    ensures Value(Zeros(k) + s) == Value(s) && AllDigits(Zeros(k) + s)
    decreases |s| + k
  {
    if s != "" {
      var init := s[..|s| - 1];
      ValueIgnoresZeros(k, init);
      assert (Zeros(k) + s)[..|Zeros(k) + s| - 1] == Zeros(k) + init;
    } else if k > 0 {
      ZerosValue(k);
      assert Zeros(k) + s == Zeros(k);
    }
  }

  lemma {:induction false} ZerosValue(k: nat)
    ensures |Zeros(k)| == k && (forall i :: 0 <= i < k ==> Zeros(k)[i] == '0') && Value(Zeros(k)) == 0
  {
    if k == 0 {
    } else {
      ZerosValue(k - 1);
      assert Zeros(k)[..k - 1] == Zeros(k - 1);
    }
  }

  /** Formatting a number never loses it. */
  lemma {:induction false} ValueOfPadded(n: nat, width: nat)
    ensures Value(Padded(n, width)) == n && AllDigits(Padded(n, width))
  {
    ValueOfDigits(n);
    if |Digits(n)| < width {
      ValueIgnoresZeros(width - |Digits(n)|, Digits(n));
    }
  }

  lemma {:induction false} DigitsLack(s: string, c: char)
    requires AllDigits(s) && !IsDigit(c)
    ensures c !in s
  {
  }

  lemma {:induction false} LastIsUnique(a: string, b: string, k: nat, c: char)
    requires c !in b && k < |a + [c] + b| && (a + [c] + b)[k] == c
    ensures k <= |a|
  {
    var s := a + [c] + b;
    assert forall i :: |a| < i < |s| ==> s[i] == b[i - |a| - 1];
  }

  /** A string can be cut at its last separator in one way only. */
  lemma {:induction false} CutAtLast(a: string, b: string, a': string, b': string, c: char)
    requires a + [c] + b == a' + [c] + b'
    requires c !in b && c !in b'
    ensures a == a' && b == b'
  {
    var s := a + [c] + b;
    LastIsUnique(a, b, |a'|, c);
    LastIsUnique(a', b', |a|, c);
    assert a == s[..|a|] && a' == (a' + [c] + b')[..|a'|];
    assert b == s[|a| + 1..] && b' == (a' + [c] + b')[|a'| + 1..];
  }

  lemma {:induction false} SameTail(a: string, b: string, b': string)
    requires a + b == a + b'
    ensures b == b'
  {
    assert b == (a + b)[|a|..] && b' == (a + b')[|a|..];
  }

  lemma {:induction false} SameHead(a: string, a': string, b: string)
    requires a + b == a' + b
    ensures a == a'
  {
    assert a == (a + b)[..|a|] && a' == (a' + b)[..|a'|];
  }

  // ----- Text before the first colon -----

  /** The first piece of `s.split(":")`. */
  function BeforeColon(s: string): (base: string)
    ensures ':' !in base
  {
    if s == "" || s[0] == ':' then "" else [s[0]] + BeforeColon(s[1..])
  }

  predicate StartsWith(s: string, prefix: string) {
    |prefix| <= |s| && s[..|prefix|] == prefix
  }

  lemma {:induction false} NoColonKept(s: string)
    requires ':' !in s
    ensures BeforeColon(s) == s
  {
    if s == "" {
    } else {
      NoColonKept(s[1..]);
    }
  }

  /** Being the base id, or extending it by a colon, is the same as having that base id. */
  lemma {:induction false} SharesBase(s: string, base: string)
    requires ':' !in base
    ensures (s == base || StartsWith(s, base + ":")) <==> BeforeColon(s) == base
  {
    if base == "" {
      assert s != "" ==> s[..1] == [s[0]];
    } else if s != "" && s[0] == base[0] {
      SharesBase(s[1..], base[1..]);
      assert base[1..] + ":" == (base + ":")[1..];
      if |base| + 1 <= |s| {
        assert s[..|base| + 1] == [s[0]] + s[1..][..|base|];
        assert base + ":" == [base[0]] + (base[1..] + ":");
      }
      assert base == [base[0]] + base[1..] && s == [s[0]] + s[1..];
    } else if s != "" && |base| + 1 <= |s| {
      assert s[..|base| + 1][0] != (base + ":")[0];
    }
  }
}
