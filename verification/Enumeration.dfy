/**
 * The order in which a canonical body's members stand (src/middleware/idempotency.ts, canonicalise, and
 * JavaScript's own order of property keys), in terms of the numbers that index keys spell.
 */
module Enumeration {
  import opened Canonical

  predicate Digits(key: string) {
    forall i :: 0 <= i < |key| ==> '0' <= key[i] <= '9'
  }

  function Power10(n: nat): (p: nat)
    ensures 0 < p
  {
    if n == 0 then 1 else 10 * Power10(n - 1)
  }

  /** The number a string of digits spells. */
  function NumberOf(key: string): nat
    requires Digits(key)
  {
    if key == "" then 0
    else
      DigitTimes(key[0] as int - '0' as int, Power10(|key| - 1));
      (key[0] as int - '0' as int) * Power10(|key| - 1) + NumberOf(key[1..])
  }

  lemma {:induction false} NumberBelow(key: string)
    requires Digits(key)
    ensures NumberOf(key) < Power10(|key|)
  {
    if key != "" {
      NumberBelow(key[1..]);
      DigitTimes(key[0] as int - '0' as int, Power10(|key| - 1));
    }
  }

  lemma DigitTimes(d: nat, p: nat)
    requires d <= 9
    ensures 0 <= d * p <= 9 * p && (0 < d ==> p <= d * p)
  {
  }

  /** Strings of digits of one length compare as their numbers do. */
  lemma {:induction false} LexIsNumeric(a: string, b: string)
    requires Digits(a) && Digits(b) && |a| == |b|
    ensures LexLess(a, b) <==> NumberOf(a) < NumberOf(b)
  {
    if a != "" {
      NumberBelow(a[1..]);
      NumberBelow(b[1..]);
      LexIsNumeric(a[1..], b[1..]);
      FirstDigitDecides(a[0] as int - '0' as int, b[0] as int - '0' as int, Power10(|a| - 1), NumberOf(a[1..]), NumberOf(b[1..]));
    }
  }

  lemma FirstDigitDecides(d: nat, e: nat, p: nat, m: nat, n: nat)
    requires m < p && n < p
    ensures d < e ==> d * p + m < e * p + n
    ensures e < d ==> e * p + n < d * p + m
  {
    if d < e {
      LargerDigit(d, e, p);
    } else if e < d {
      LargerDigit(e, d, p);
    }
  }

  lemma LargerDigit(d: nat, e: nat, p: nat)
    requires d < e
    ensures d * p + p <= e * p
  {
    var m := e - d - 1;
    assert m * p >= 0;
    assert e * p == d * p + p + m * p by { assert e == d + 1 + m; }
  }

  lemma {:induction false} PowerGrows(m: nat, n: nat)
    requires m <= n
    ensures Power10(m) <= Power10(n)
  {
    if m < n {
      PowerGrows(m, n - 1);
    }
  }

  lemma {:induction false} LongerIsLarger(a: string, b: string)
    requires Digits(a) && Digits(b) && a != "" && |a| < |b| && b[0] != '0'
    ensures NumberOf(a) < Power10(|b| - 1) <= NumberOf(b)
  {
    NumberBelow(a);
    PowerGrows(|a|, |b| - 1);
    DigitTimes(b[0] as int - '0' as int, Power10(|b| - 1));
  }

  /** The keys JavaScript enumerates first: the numbers below 2^32 - 1, without leading zeros. */
  lemma {:induction false} IndexIff(key: string)
    ensures IsIndex(key) <==> key != "" && Digits(key) && (key[0] == '0' ==> key == "0") && NumberOf(key) < 4_294_967_295
  {
    if key != "" && Digits(key) && (key[0] == '0' ==> |key| == 1) {
      var last := "4294967294";
      LastIndex();
      if |key| < 10 {
        LongerIsLarger(key, last);
      } else if |key| == 10 {
        LexIsNumeric(last, key);
      } else {
        LongerIsLarger(last, key);
      }
    }
  }

  lemma {:induction false} Digit(key: string, rest: string, value: nat)
    requires key != "" && key[1..] == rest && Digits(rest) && NumberOf(rest) == value && '0' <= key[0] <= '9'
    ensures Digits(key) && NumberOf(key) == (key[0] as int - '0' as int) * Power10(|rest|) + value
  {
    assert forall i :: 0 < i < |key| ==> key[i] == rest[i - 1];
  }

  lemma Powers()
    ensures Power10(0) == 1 && Power10(1) == 10 && Power10(2) == 100 && Power10(3) == 1_000 && Power10(4) == 10_000
    ensures Power10(5) == 100_000 && Power10(6) == 1_000_000 && Power10(7) == 10_000_000 && Power10(8) == 100_000_000
    ensures Power10(9) == 1_000_000_000
  {
  }

  lemma LowHalf()
    ensures Digits("67294") && NumberOf("67294") == 67_294
  {
    Powers();
    Digit("4", "", 0);
    Digit("94", "4", 4);
    Digit("294", "94", 94);
    Digit("7294", "294", 294);
    Digit("67294", "7294", 7294);
  }

  lemma LastIndex()
    ensures Digits("4294967294") && NumberOf("4294967294") == 4_294_967_294
  {
    Powers();
    LowHalf();
    Digit("967294", "67294", 67294);
    Digit("4967294", "967294", 967294);
    Digit("94967294", "4967294", 4967294);
    Digit("294967294", "94967294", 94967294);
    Digit("4294967294", "294967294", 294967294);
  }

  /** Members come in this order: index keys by number, then the others by code units. */
  lemma {:induction false} EnumerationOrder(a: string, b: string)
    ensures IsIndex(a) && IsIndex(b) ==> (Precedes(a, b) <==> Digits(a) && Digits(b) && NumberOf(a) < NumberOf(b))
    ensures IsIndex(a) && !IsIndex(b) ==> Precedes(a, b) && !Precedes(b, a)
    ensures !IsIndex(a) && !IsIndex(b) ==> (Precedes(a, b) <==> LexLess(a, b))
  {
    IndexIff(a);
    IndexIff(b);
    if IsIndex(a) && IsIndex(b) {
      if |a| == |b| {
        LexIsNumeric(a, b);
      } else if |a| < |b| {
        LongerIsLarger(a, b);
      } else {
        LongerIsLarger(b, a);
      }
    }
  }
}
