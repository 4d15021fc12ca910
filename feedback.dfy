/** Which message the CPF field shows after a keystroke and after it loses
    focus (js/main.js, the `input` and `blur` listeners of the CPF field). */
module Feedback {
  import opened Digits
  import opened Cpf
  import opened Masks

  /** The field's error state: "CPF inválido.", "CPF incompleto." or no
      message at all. */
  datatype CpfMessage = Invalid | Incomplete | Hidden

  /** The `input` listener's choice, made on the value it has just masked. */
  function OnCpfInput(value: string): (m: CpfMessage)
    ensures m == Incomplete <==> 0 < |value| < 14
    ensures m == Invalid <==> |value| == 14 && !IsValidCpf(value)
  {
    if |value| == 14 && !IsValidCpf(value) then Invalid
    else if |value| == 14 && IsValidCpf(value) then Hidden
    else if |value| < 14 && |value| > 0 then Incomplete
    else Hidden
  }

  /** The `blur` listener's choice on the field's current value. */
  function OnCpfBlur(value: string): (m: CpfMessage)
    ensures m == Invalid <==> |value| > 0 && !IsValidCpf(value)
    ensures m != Incomplete
  {
    if |value| > 0 && !IsValidCpf(value) then Invalid else Hidden
  }

  /** A keystroke, told by the number of digits typed so far: nothing shown
      for an empty field, "incompleto" below eleven digits, the checksum
      verdict at exactly eleven, and no message at all beyond eleven. */
  lemma {:induction false} InputMessageByDigits(raw: string)
    ensures var n := |Strip(raw)|;
      OnCpfInput(MaskCpf(raw)) ==
        if n == 0 then Hidden
        else if n < 11 then Incomplete
        else if n == 11 then (if IsValidCpf(raw) then Hidden else Invalid)
        else Hidden
  {
    MaskCpfLength(raw);
    MaskCpfSameVerdict(raw);
  }

  /** Losing focus flags any non-empty value whose digits fail the check,
      whatever their number. */
  lemma {:induction false} BlurMessageByDigits(raw: string)
    ensures OnCpfBlur(MaskCpf(raw)) == Invalid <==> |Strip(raw)| > 0 && !IsValidCpf(raw)
  {
    MaskCpfLength(raw);
    MaskCpfSameVerdict(raw);
  }

  /** The two listeners disagree only past eleven digits: typing hides the
      message there, and losing focus then shows "CPF inválido.". */
  lemma {:induction false} BlurCatchesExtraDigits(raw: string)
    requires |Strip(raw)| > 11
    ensures OnCpfInput(MaskCpf(raw)) == Hidden
    ensures OnCpfBlur(MaskCpf(raw)) == Invalid
  {
    InputMessageByDigits(raw);
    BlurMessageByDigits(raw);
  }
}
