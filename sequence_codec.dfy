/**
  The sequence codec of the SKU generator: a counter value becomes the four
  last characters of a SKU, written in base |Alphabet| over the generator's
  alphabet (`format_sequence`). The source has no decoder; `DecodeSequence`
  is a ghost inverse used to state that distinct counters get distinct codes.
 */
module SequenceCodec {

  /** `sku_alphabet`: 29 symbols (it keeps '9', although the comments beside it say otherwise). */
  const Alphabet: string := "ABCDEFGHJKMNPQRSTWXYZ23456789"

  /** The number of characters of a sequence code. */
  const Width: nat := 4

  function Pow(b: nat, k: nat): nat {
    if k == 0 then 1 else b * Pow(b, k - 1)
  }

  /** The number of distinct codes, |Alphabet|^Width; codes repeat after it. */
  const Capacity: nat := Pow(|Alphabet|, Width)

  /**
    The `k` lowest base-|Alphabet| digits of `t`, most significant first.
    Dafny's `/` and `%` by a positive divisor are Python's `//` and `%`,
    negative `t` included. (Naming `t` in the decreases clause keeps the
    verifier from unrolling the definition for a literal `k` alone.)
   */
  function Digits(t: int, k: nat): (d: string)
    ensures |d| == k
    decreases k, t
  {
    if k == 0 then "" else Digits(t / |Alphabet|, k - 1) + [Alphabet[t % |Alphabet|]]
  }

  /** What `format_sequence(n)` returns. */
  function SequenceCode(n: int): string {
    if n == 0 then "2222" else Digits(n - 1, Width)
  }

  /** `format_sequence`: four digit extractions, least significant first. */
  method FormatSequence(sequence: int) returns (code: string)
    ensures code == SequenceCode(sequence)
  {
    var alphabet := Alphabet;
    var base := |alphabet|;
    if sequence == 0 {
      return "2222";
    }
    var adjusted := sequence - 1;
    code := "";
    var temp := adjusted;
    for i := 0 to 4
      invariant Digits(temp, 4 - i) + code == Digits(adjusted, 4)
    {
      code := [alphabet[temp % base]] + code;
      temp := temp / base;
    }
  }

  lemma {:induction false} DigitsInAlphabet(t: int, k: nat)
    ensures forall i :: 0 <= i < k ==> Digits(t, k)[i] in Alphabet
    decreases k
  {
    if k > 0 {
      DigitsInAlphabet(t / |Alphabet|, k - 1);
      var d := Digits(t, k);
      assert d[k - 1] == Alphabet[t % |Alphabet|];
      assert forall i :: 0 <= i < k - 1 ==> d[i] == Digits(t / |Alphabet|, k - 1)[i];
    }
  }

  /** Any code is four characters of the alphabet. */
  lemma SequenceCodeShape(n: int)
    ensures |SequenceCode(n)| == Width
    ensures forall i :: 0 <= i < Width ==> SequenceCode(n)[i] in Alphabet
  {
    if n == 0 {
      assert Alphabet[21] == '2';
    } else {
      DigitsInAlphabet(n - 1, Width);
    }
  }

  lemma SequenceCodeFirstValues()
    ensures SequenceCode(0) == "2222"
    ensures SequenceCode(1) == "AAAA"
  {
  }

  /** Position of `c` in `s`, or |s| when it does not occur. */
  function IndexIn(s: string, c: char): nat {
    if s == [] || s[0] == c then 0 else 1 + IndexIn(s[1..], c)
  }

  predicate NoDuplicates(s: string) {
    forall i, j :: 0 <= i < j < |s| ==> s[i] != s[j]
  }

  predicate AdjacentIncreasing(s: string) {
    forall i :: 0 <= i < |s| - 1 ==> s[i] < s[i + 1]
  }

  lemma {:induction false} IncreasingOrdered(s: string)
    requires AdjacentIncreasing(s)
    ensures forall i, j :: 0 <= i < j < |s| ==> s[i] < s[j]
    decreases |s|
  {
    if |s| > 1 {
      var init := s[..|s| - 1];
      assert AdjacentIncreasing(init) by {
        forall i | 0 <= i < |init| - 1
          ensures init[i] < init[i + 1]
        {
          assert init[i] == s[i] && init[i + 1] == s[i + 1];
        }
      }
      IncreasingOrdered(init);
      forall i, j | 0 <= i < j < |s|
        ensures s[i] < s[j]
      {
        if j < |s| - 1 {
          assert init[i] == s[i] && init[j] == s[j];
        } else if i < j - 1 {
          assert init[i] == s[i] && init[j - 1] == s[j - 1];
        }
      }
    }
  }

  /** The letters come first and the digits after, each run in increasing order. */
  lemma AlphabetNoDuplicates()
    ensures NoDuplicates(Alphabet)
  {
    var letters := Alphabet[..21];
    var digits := Alphabet[21..];
    assert forall i :: 0 <= i < 20 ==> Alphabet[i] < Alphabet[i + 1];
    assert forall i :: 21 <= i < 28 ==> Alphabet[i] < Alphabet[i + 1];
    assert AdjacentIncreasing(letters) by {
      forall i | 0 <= i < |letters| - 1
        ensures letters[i] < letters[i + 1]
      {
        assert letters[i] == Alphabet[i] && letters[i + 1] == Alphabet[i + 1];
      }
    }
    assert AdjacentIncreasing(digits) by {
      forall i | 0 <= i < |digits| - 1
        ensures digits[i] < digits[i + 1]
      {
        assert digits[i] == Alphabet[21 + i] && digits[i + 1] == Alphabet[21 + i + 1];
      }
    }
    IncreasingOrdered(letters);
    IncreasingOrdered(digits);
    assert letters[0] == 'A' && digits[7] == '9';
    forall i, j | 0 <= i < j < |Alphabet|
      ensures Alphabet[i] != Alphabet[j]
    {
      if j < 21 {
        assert letters[i] == Alphabet[i] && letters[j] == Alphabet[j];
      } else if 21 <= i {
        assert digits[i - 21] == Alphabet[i] && digits[j - 21] == Alphabet[j];
      } else {
        assert letters[i] == Alphabet[i] && digits[j - 21] == Alphabet[j];
        assert 'A' <= letters[i] && digits[j - 21] <= '9';
      }
    }
  }

  lemma {:induction false} IndexInDistinct(s: string, i: nat)
    requires NoDuplicates(s) && i < |s|
    ensures IndexIn(s, s[i]) == i
  {
    if i > 0 {
      assert s[i] == s[1..][i - 1] && s[0] != s[i];
      IndexInDistinct(s[1..], i - 1);
    }
  }

  /** The value of a code read as a base-|Alphabet| numeral. */
  ghost function NumeralValue(code: string): int {
    if code == [] then 0
    else |Alphabet| * NumeralValue(code[..|code| - 1]) + IndexIn(Alphabet, code[|code| - 1])
  }

  /** The ghost inverse of `SequenceCode` on 1..Capacity. */
  ghost function DecodeSequence(code: string): int {
    NumeralValue(code) + 1
  }

  lemma {:induction false} DigitsValue(t: int, k: nat)
    requires 0 <= t < Pow(|Alphabet|, k)
    ensures NumeralValue(Digits(t, k)) == t
  {
    if k > 0 {
      var b := |Alphabet|;
      assert b == 29;
      var d := Digits(t / b, k - 1);
      assert t / b < Pow(b, k - 1);
      DigitsValue(t / b, k - 1);
      AlphabetNoDuplicates();
      IndexInDistinct(Alphabet, t % b);
      var code := d + [Alphabet[t % b]];
      assert code[..|code| - 1] == d;
    }
  }

  /** Decoding a code gives back its counter, for every counter up to Capacity. */
  lemma SequenceRoundTrip(n: int)
    requires 1 <= n <= Capacity
    ensures DecodeSequence(SequenceCode(n)) == n
  {
    assert SequenceCode(n) == Digits(n - 1, Width);
    DigitsDecode(n - 1, Width);
  }

  lemma DigitsDecode(t: int, k: nat)
    requires 0 <= t < Pow(|Alphabet|, k)
    ensures DecodeSequence(Digits(t, k)) == t + 1
  {
    DigitsValue(t, k);
  }

  /** Distinct counters up to Capacity get distinct codes. */
  lemma SequenceCodeInjective(n: int, m: int)
    requires 1 <= n <= Capacity && 1 <= m <= Capacity
    requires n != m
    ensures SequenceCode(n) != SequenceCode(m)
  {
    SequenceRoundTrip(n);
    SequenceRoundTrip(m);
  }

  lemma DivModShift(t: int, q: int)
    ensures (t + 29 * q) / 29 == t / 29 + q
    ensures (t + 29 * q) % 29 == t % 29
  {
    var d, r := t / 29, t % 29;
    assert t == 29 * d + r && 0 <= r < 29;
    assert t + 29 * q == 29 * (d + q) + r;
  }

  lemma {:induction false} DigitsPeriodic(t: int, k: nat)
    ensures Digits(t + Pow(|Alphabet|, k), k) == Digits(t, k)
    decreases k
  {
    if k > 0 {
      var p := Pow(|Alphabet|, k - 1);
      assert Pow(|Alphabet|, k) == 29 * p;
      DivModShift(t, p);
      DigitsPeriodic(t / 29, k - 1);
    }
  }

  /** Codes wrap around: a counter and the counter Capacity further get the same code. */
  lemma SequenceCodeWraps(n: int)
    requires n != 0 && n + Capacity != 0
    ensures SequenceCode(n + Capacity) == SequenceCode(n)
  {
    assert SequenceCode(n) == Digits(n - 1, Width);
    assert SequenceCode(n + Capacity) == Digits(n - 1 + Capacity, Width);
    DigitsPeriodic(n - 1, Width);
  }
}
