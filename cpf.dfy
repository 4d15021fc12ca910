/** The CPF (Cadastro de Pessoas Físicas) check-digit validator of the
    registration form, `validateCPF` in js/main.js: strip the non-digits,
    reject anything that is not eleven digits or is one digit repeated
    eleven times, then compare the two modulo-11 check digits. */
module Cpf {
  import opened Digits

  /** The check digit of a weighted sum: `(sum * 10) % 11`, where the
      remainders 10 and 11 both become 0. */
  function CheckDigit(sum: nat): (r: nat)
    ensures r <= 9
  {
    var remainder := (sum * 10) % 11;
    if remainder == 10 || remainder == 11 then 0 else remainder
  }

  /** The sum over positions i = 1..n of digit i times (top - i). */
  function WeightedSum(d: string, n: nat, top: nat): (sum: nat)
    requires AllDigits(d) && n <= |d| && n < top
    ensures sum == 0 <==> forall i :: 0 <= i < n ==> d[i] == '0'
  {
    if n == 0 then 0
    else
      var v, w := DigitValue(d[n - 1]), top - n;
      assert v * w >= v by { assert w >= 1; }
      WeightedSum(d, n - 1, top) + v * w
  }

  /** On an eleven-digit string the pattern `(\d)\1{10}` matches exactly when
      all eleven digits are the same one. */
  predicate AllSame(d: string) {
    forall i :: 0 <= i < |d| ==> d[i] == d[0]
  }

  /** What `validateCPF(s)` answers.  Only an eleven-digit value whose
      digits are not all the same can pass. */
  predicate IsValidCpf(s: string)
    ensures IsValidCpf(s) ==> |Strip(s)| == 11
    ensures IsValidCpf(s) ==> !AllSame(Strip(s))
  {
    var d := Strip(s);
    |d| == 11 && !AllSame(d) &&
    CheckDigit(WeightedSum(d, 9, 11)) == DigitValue(d[9]) &&
    CheckDigit(WeightedSum(d, 10, 12)) == DigitValue(d[10])
  }

  /** `validateCPF`: the two summing loops with their running `sum` and the
      reassigned `remainder`, as the handler runs them. */
  method ValidateCpf(s: string) returns (ok: bool)
    ensures ok == IsValidCpf(s)
  {
    var cpf := Strip(s);
    if |cpf| != 11 || AllSame(cpf) {
      return false;
    }
    var sum := 0;
    var remainder;
    for i := 1 to 10
      invariant sum == WeightedSum(cpf, i - 1, 11)
    {
      sum := sum + DigitValue(cpf[i - 1]) * (11 - i);
    }
    remainder := (sum * 10) % 11;
    if remainder == 10 || remainder == 11 {
      remainder := 0;
    }
    if remainder != DigitValue(cpf[9]) {
      return false;
    }
    sum := 0;
    for i := 1 to 11
      invariant sum == WeightedSum(cpf, i - 1, 12)
    {
      sum := sum + DigitValue(cpf[i - 1]) * (12 - i);
    }
    remainder := (sum * 10) % 11;
    if remainder == 10 || remainder == 11 {
      remainder := 0;
    }
    if remainder != DigitValue(cpf[10]) {
      return false;
    }
    return true;
  }

  /** The `* 10` form used by the code is the textbook CPF rule: with
      r = sum mod 11, the check digit is 0 when r < 2 and 11 - r otherwise. */
  lemma CheckDigitTextbook(sum: nat)
    ensures CheckDigit(sum) == if sum % 11 < 2 then 0 else 11 - sum % 11
  {
    var q, r := sum / 11, sum % 11;
    assert sum == 11 * q + r;
    assert sum * 10 == 11 * (10 * q) + 10 * r;
    assert (sum * 10) % 11 == (10 * r) % 11;
  }

  /** The first check-digit sum written out: 10·d1 + 9·d2 + … + 2·d9. */
  lemma FirstSumClosedForm(d: string)
    requires AllDigits(d) && |d| == 11
    ensures WeightedSum(d, 9, 11) ==
      10 * DigitValue(d[0]) + 9 * DigitValue(d[1]) + 8 * DigitValue(d[2]) +
      7 * DigitValue(d[3]) + 6 * DigitValue(d[4]) + 5 * DigitValue(d[5]) +
      4 * DigitValue(d[6]) + 3 * DigitValue(d[7]) + 2 * DigitValue(d[8])
  {
    assert WeightedSum(d, 1, 11) == 10 * DigitValue(d[0]);
    assert WeightedSum(d, 2, 11) == WeightedSum(d, 1, 11) + 9 * DigitValue(d[1]);
    assert WeightedSum(d, 3, 11) == WeightedSum(d, 2, 11) + 8 * DigitValue(d[2]);
    assert WeightedSum(d, 4, 11) == WeightedSum(d, 3, 11) + 7 * DigitValue(d[3]);
    assert WeightedSum(d, 5, 11) == WeightedSum(d, 4, 11) + 6 * DigitValue(d[4]);
    assert WeightedSum(d, 6, 11) == WeightedSum(d, 5, 11) + 5 * DigitValue(d[5]);
    assert WeightedSum(d, 7, 11) == WeightedSum(d, 6, 11) + 4 * DigitValue(d[6]);
    assert WeightedSum(d, 8, 11) == WeightedSum(d, 7, 11) + 3 * DigitValue(d[7]);
  }

  /** The second check-digit sum written out: 11·d1 + 10·d2 + … + 2·d10. */
  lemma SecondSumClosedForm(d: string)
    requires AllDigits(d) && |d| == 11
    ensures WeightedSum(d, 10, 12) ==
      11 * DigitValue(d[0]) + 10 * DigitValue(d[1]) + 9 * DigitValue(d[2]) +
      8 * DigitValue(d[3]) + 7 * DigitValue(d[4]) + 6 * DigitValue(d[5]) +
      5 * DigitValue(d[6]) + 4 * DigitValue(d[7]) + 3 * DigitValue(d[8]) +
      2 * DigitValue(d[9])
  {
    assert WeightedSum(d, 1, 12) == 11 * DigitValue(d[0]);
    assert WeightedSum(d, 2, 12) == WeightedSum(d, 1, 12) + 10 * DigitValue(d[1]);
    assert WeightedSum(d, 3, 12) == WeightedSum(d, 2, 12) + 9 * DigitValue(d[2]);
    assert WeightedSum(d, 4, 12) == WeightedSum(d, 3, 12) + 8 * DigitValue(d[3]);
    assert WeightedSum(d, 5, 12) == WeightedSum(d, 4, 12) + 7 * DigitValue(d[4]);
    assert WeightedSum(d, 6, 12) == WeightedSum(d, 5, 12) + 6 * DigitValue(d[5]);
    assert WeightedSum(d, 7, 12) == WeightedSum(d, 6, 12) + 5 * DigitValue(d[6]);
    assert WeightedSum(d, 8, 12) == WeightedSum(d, 7, 12) + 4 * DigitValue(d[7]);
    assert WeightedSum(d, 9, 12) == WeightedSum(d, 8, 12) + 3 * DigitValue(d[8]);
  }

  /** The CPF rule in its usual closed form: eleven digits, not all equal,
      whose 10th and 11th digits are the check digits of the two weighted
      sums over the digits before them. */
  lemma ValidCpfClosedForm(s: string)
    ensures IsValidCpf(s) <==>
      var d := Strip(s);
      |d| == 11 && !AllSame(d) &&
      DigitValue(d[9]) == CheckDigit(
        10 * DigitValue(d[0]) + 9 * DigitValue(d[1]) + 8 * DigitValue(d[2]) +
        7 * DigitValue(d[3]) + 6 * DigitValue(d[4]) + 5 * DigitValue(d[5]) +
        4 * DigitValue(d[6]) + 3 * DigitValue(d[7]) + 2 * DigitValue(d[8])) &&
      DigitValue(d[10]) == CheckDigit(
        11 * DigitValue(d[0]) + 10 * DigitValue(d[1]) + 9 * DigitValue(d[2]) +
        8 * DigitValue(d[3]) + 7 * DigitValue(d[4]) + 6 * DigitValue(d[5]) +
        5 * DigitValue(d[6]) + 4 * DigitValue(d[7]) + 3 * DigitValue(d[8]) +
        2 * DigitValue(d[9]))
  {
    var d := Strip(s);
    if |d| == 11 {
      FirstSumClosedForm(d);
      SecondSumClosedForm(d);
    }
  }

  /** The verdict depends on the digits alone: punctuation is ignored. */
  lemma VerdictIgnoresNonDigits(s: string, t: string)
    requires Strip(s) == Strip(t)
    ensures IsValidCpf(s) == IsValidCpf(t)
  {
  }

  /** Any input whose digits are 52998224725 (such as 529.982.247-25) is
      accepted: its check digits are 2 and 5. */
  lemma AcceptsKnownValid(s: string)
    requires Strip(s) == "52998224725"
    ensures CheckDigit(WeightedSum(Strip(s), 9, 11)) == 2
    ensures CheckDigit(WeightedSum(Strip(s), 10, 12)) == 5
    ensures IsValidCpf(s)
  {
    var d := Strip(s);
    FirstSumClosedForm(d);
    SecondSumClosedForm(d);
    assert d[1] != d[0];
  }

  /** Any input whose digits are 12345678900 is rejected: the first check
      digit (0) matches, the second is 9 where the number has 0. */
  lemma RejectsWrongSecondDigit(s: string)
    requires Strip(s) == "12345678900"
    ensures CheckDigit(WeightedSum(Strip(s), 9, 11)) == 0
    ensures CheckDigit(WeightedSum(Strip(s), 10, 12)) == 9
    ensures !IsValidCpf(s)
  {
    var d := Strip(s);
    FirstSumClosedForm(d);
    SecondSumClosedForm(d);
  }

  /** Eleven zeros pass both checksums and are still rejected, as one digit
      repeated. */
  lemma RejectsRepeatedDigit(s: string)
    requires Strip(s) == "00000000000"
    ensures CheckDigit(WeightedSum(Strip(s), 9, 11)) == 0
    ensures CheckDigit(WeightedSum(Strip(s), 10, 12)) == 0
    ensures !IsValidCpf(s)
  {
    var d := Strip(s);
    FirstSumClosedForm(d);
    SecondSumClosedForm(d);
  }
}
