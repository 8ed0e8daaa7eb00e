/** The two hand-written decimal renderers, and operation ids. */
module Decimals {
  import opened Types

  const UINT64 := 0x1_0000_0000_0000_0000

  function DigitChar(d: nat): (c: char)
    requires d < 10
    ensures '0' <= c <= '9' && (c as int) - ('0' as int) == d
  {
    ('0' as int + d) as char
  }

  /** Digits of a positive number, nothing for zero. */
  function Digits(n: nat): string {
    if n == 0 then "" else Digits(n / 10) + [DigitChar(n % 10)]
  }

  function Render(n: nat): string {
    if n == 0 then "0" else Digits(n)
  }

  predicate IsDigit(c: char) { '0' <= c <= '9' }

  predicate AllDigits(s: string) { forall i :: 0 <= i < |s| ==> IsDigit(s[i]) }

  function DigitValue(c: char): nat
    requires IsDigit(c)
  {
    c as int - '0' as int
  }

  /** The number a string of digits denotes; a reference definition independent of rendering. */
  function Denoted(s: string): nat
    requires AllDigits(s)
  {
    if s == "" then 0 else 10 * Denoted(s[..|s| - 1]) + DigitValue(s[|s| - 1])
  }

  function Pow10(k: nat): nat {
    if k == 0 then 1 else 10 * Pow10(k - 1)
  }

  lemma DenotedSnoc(s: string, c: char)
    requires AllDigits(s) && IsDigit(c)
    ensures AllDigits(s + [c]) && Denoted(s + [c]) == 10 * Denoted(s) + DigitValue(c)
  {
    assert (s + [c])[..|s|] == s;
  }

  lemma DenotedNone()
    ensures Denoted("") == 0
  {
  }

  lemma {:induction false} DigitsDenote(n: nat)
    ensures AllDigits(Digits(n)) && Denoted(Digits(n)) == n
    ensures n > 0 ==> |Digits(n)| > 0 && Digits(n)[0] != '0'
  {
    hide Denoted;
    DenotedNone();
    if n > 0 {
      DigitsDenote(n / 10);
      DenotedSnoc(Digits(n / 10), DigitChar(n % 10));
      if n / 10 == 0 {
        assert Digits(n / 10) == "";
      } else {
        assert Digits(n)[0] == Digits(n / 10)[0];
      }
    }
  }

  lemma {:induction false} DigitsLength(n: nat, k: nat)
    ensures n < Pow10(k) <==> |Digits(n)| <= k
  {
    if n > 0 && k > 0 {
      DigitsLength(n / 10, k - 1);
      assert n < 10 * Pow10(k - 1) <==> n / 10 < Pow10(k - 1);
    } else if n > 0 {
      assert |Digits(n)| >= 1;
    } else {
      PowPositive(k);
    }
  }

  lemma {:induction false} PowPositive(k: nat)
    ensures Pow10(k) >= 1
  {
    if k > 0 {
      PowPositive(k - 1);
    }
  }

  /** The decimal form denotes the number, has no leading zero, and is all digits. */
  lemma DecimalDenotes(n: nat)
    ensures AllDigits(Render(n)) && Denoted(Render(n)) == n
    ensures |Render(n)| > 0 && (Render(n)[0] == '0' <==> n == 0)
  {
    DigitsDenote(n);
    assert Denoted("") == 0;
    DenotedSnoc("", '0');
    assert "" + ['0'] == "0";
  }

  lemma DecimalInjective(m: nat, n: nat)
    ensures Render(m) == Render(n) <==> m == n
  {
    DecimalDenotes(m);
    DecimalDenotes(n);
  }

  lemma Pow10Twenty()
    ensures Pow10(4) == 10000
    ensures UINT64 <= Pow10(20)
  {
    assert Pow10(10) == 10000000000 by {
      assert Pow10(5) == 100000;
    }
    assert Pow10(15) == 100000 * Pow10(10);
    assert Pow10(20) == 100000 * Pow10(15);
  }

  /** The renderers fill a buffer from its end; `buf[i..]` holds the digits of what was divided away. */
  method FillDigits(buf: array<char>, n: nat) returns (start: int)
    requires n > 0
    modifies buf
    ensures start == -1 <==> n >= Pow10(buf.Length)
    ensures start != -1 ==> 0 <= start < buf.Length && buf[start..] == Digits(n)
  {
    var i := buf.Length;
    var m := n;
    DigitsLength(n, buf.Length);
    while m > 0
      invariant 0 <= i <= buf.Length
      invariant Digits(n) == Digits(m) + buf[i..]
      decreases m
    {
      i := i - 1;
      if i < 0 {
        return -1;
      }
      ghost var done := buf[i + 1..];
      buf[i] := DigitChar(m % 10);
      assert buf[i..] == [buf[i]] + done;
      m := m / 10;
    }
    assert Digits(n) == buf[i..];
    return i;
  }

  /** fmtUint: twenty bytes always suffice for a uint64. */
  method FmtUint(n: nat) returns (s: string)
    requires n < UINT64
    ensures s == Render(n)
  {
    if n == 0 {
      return "0";
    }
    var buf := new char[20];
    Pow10Twenty();
    var i := FillDigits(buf, n);
    return buf[i..];
  }

  /** itoa with its four-byte buffer. None is the index-out-of-range panic; a negative number skips
      the loop and renders as the empty string. */
  method Itoa(n: int) returns (s: Option<string>)
    ensures n < 0 ==> s == Some("")
    ensures 0 <= n <= 9999 ==> s == Some(Render(n))
    ensures n > 9999 ==> s == None
  {
    if n == 0 {
      return Some("0");
    }
    if n < 0 {
      return Some("");
    }
    var buf := new char[4];
    Pow10Twenty();
    var i := FillDigits(buf, n);
    if i == -1 {
      return None;
    }
    return Some(buf[i..]);
  }

  /** `opSeq` and nextOpID. */
  class OpCounter {
    var opSeq: nat

    constructor ()
      ensures opSeq == 0
    {
      opSeq := 0;
    }

    method NextOpID() returns (id: string)
      requires opSeq < UINT64
      modifies this
      ensures opSeq == (old(opSeq) + 1) % UINT64
      ensures id == OpID(opSeq) && id[..3] == "op-" && AllDigits(id[3..]) && Denoted(id[3..]) == opSeq
    {
      opSeq := (opSeq + 1) % UINT64;
      var digits := FmtUint(opSeq);
      id := "op-" + digits;
      DecimalDenotes(opSeq);
      assert id[3..] == digits;
    }
  }

  function OpID(seq64: nat): string { "op-" + Render(seq64) }

  /** The id handed out by call number `k` of a fresh manager, counting from 1. */
  function IdOfCall(k: nat): string { OpID(k % UINT64) }

  /** Two calls get the same id exactly when the 64-bit counter has wrapped a whole number of times
      between them. */
  lemma IdsRepeatOnlyOnWrap(j: nat, k: nat)
    ensures IdOfCall(j) == IdOfCall(k) <==> j % UINT64 == k % UINT64
    ensures j < k < j + UINT64 ==> IdOfCall(j) != IdOfCall(k)
  {
    var a, b := Render(j % UINT64), Render(k % UINT64);
    DecimalInjective(j % UINT64, k % UINT64);
    assert a == ("op-" + a)[3..] && b == ("op-" + b)[3..];
  }
}
