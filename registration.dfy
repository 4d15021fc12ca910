/** The registration form's submit handlers and the stored list of
    registrations.  js/main.js checks every field and appends one record
    only when all checks pass; js/validation.js appends unconditionally.
    The browser's `checkValidity()` answers are inputs here, and the list
    kept under the storage key "registrations" is a field of a class. */
module Registration {
  import opened Digits
  import Cpf
  import Masks

  /** One submission: field name to submitted value. */
  type Record = map<string, string>

  /** A field checked with the browser's `checkValidity()`: its current
      value and the answer. */
  datatype CheckedField = CheckedField(value: string, valid: bool)

  /** `data[key] = value` over the form's entries in order: a later entry
      with the same name overwrites an earlier one. */
  function ToRecord(entries: seq<(string, string)>): (r: Record)
    ensures |r| <= |entries|
  {
    if entries == [] then map[]
    else
      var last := entries[|entries| - 1];
      ToRecord(entries[..|entries| - 1])[last.0 := last.1]
  }

  /** The `for … of formData.entries()` loop that fills `data`. */
  method CollectFormData(entries: seq<(string, string)>) returns (data: Record)
    ensures data == ToRecord(entries)
  {
    data := map[];
    for i := 0 to |entries|
      invariant data == ToRecord(entries[..i])
    {
      assert entries[..i + 1][..i] == entries[..i];
      data := data[entries[i].0 := entries[i].1];
    }
    assert entries[..|entries|] == entries;
  }

  /** Every field name of the form is a key of the record, and no other. */
  lemma {:induction false} RecordKeys(entries: seq<(string, string)>)
    ensures ToRecord(entries).Keys == set i | 0 <= i < |entries| :: entries[i].0
  {
    if entries != [] {
      var init := entries[..|entries| - 1];
      RecordKeys(init);
      assert forall i :: 0 <= i < |init| ==> init[i] == entries[i];
    }
  }

  /** A name takes the value of its last entry. */
  lemma {:induction false} RecordKeepsLastValue(entries: seq<(string, string)>, i: nat)
    requires i < |entries|
    requires forall j :: i < j < |entries| ==> entries[j].0 != entries[i].0
    ensures entries[i].0 in ToRecord(entries)
    ensures ToRecord(entries)[entries[i].0] == entries[i].1
  {
    var init := entries[..|entries| - 1];
    if i < |entries| - 1 {
      assert init[i] == entries[i];
      RecordKeepsLastValue(init, i);
    }
  }

  /** The CPF check of the submit handler: a missing field, an empty value
      or a value `validateCPF` accepts passes. */
  predicate CpfPasses(cpf: Option<string>) {
    cpf.None? || |cpf.value| == 0 || Cpf.IsValidCpf(cpf.value)
  }

  /** The phone and CEP checks: a missing field, an empty value or one the
      browser reports valid passes. */
  predicate FieldPasses(field: Option<CheckedField>) {
    field.None? || |field.value.value| == 0 || field.value.valid
  }

  /** `formIsValid` as the handler leaves it: every required field valid
      and each of the three specific checks passed. */
  predicate AllChecksPass(required: seq<bool>, cpf: Option<string>,
                          phone: Option<CheckedField>, cep: Option<CheckedField>)
    ensures AllChecksPass(required, cpf, phone, cep) ==>
      cpf.None? || |cpf.value| == 0 || |Strip(cpf.value)| == 11
  {
    (forall i :: 0 <= i < |required| ==> required[i]) &&
    CpfPasses(cpf) && FieldPasses(phone) && FieldPasses(cep)
  }

  /** The checks of js/main.js's submit handler: `formIsValid` starts true
      and every failing check clears it; no check is skipped. */
  method CheckForm(required: seq<bool>, cpf: Option<string>,
                   phone: Option<CheckedField>, cep: Option<CheckedField>)
    returns (formIsValid: bool)
    ensures formIsValid == AllChecksPass(required, cpf, phone, cep)
  {
    formIsValid := true;
    for i := 0 to |required|
      invariant formIsValid <==> forall j :: 0 <= j < i ==> required[j]
    {
      if !required[i] {
        formIsValid := false;
      }
    }
    if cpf.Some? && |cpf.value| > 0 {
      var ok := Cpf.ValidateCpf(cpf.value);
      if !ok {
        formIsValid := false;
      }
    }
    if phone.Some? && |phone.value.value| > 0 && !phone.value.valid {
      formIsValid := false;
    }
    if cep.Some? && |cep.value.value| > 0 && !cep.value.valid {
      formIsValid := false;
    }
  }

  /** One required field that fails its check keeps the form from being stored. */
  lemma FailingRequiredBlocks(required: seq<bool>, cpf: Option<string>,
                              phone: Option<CheckedField>, cep: Option<CheckedField>, i: nat)
    requires i < |required| && !required[i]
    ensures !AllChecksPass(required, cpf, phone, cep)
  {
  }

  /** A CPF field holding the masked form of a non-empty digit string that
      `validateCPF` rejects (fewer or more than eleven digits, one repeated
      digit, or a wrong check digit) keeps the form from being stored. */
  lemma {:induction false} RejectedCpfBlocks(required: seq<bool>, raw: string,
                                            phone: Option<CheckedField>, cep: Option<CheckedField>)
    requires |Strip(raw)| > 0 && !Cpf.IsValidCpf(raw)
    ensures !AllChecksPass(required, Some(Masks.MaskCpf(raw)), phone, cep)
  {
    Masks.MaskCpfLength(raw);
    Masks.MaskCpfSameVerdict(raw);
  }

  /** The list of registrations under the storage key "registrations". */
  class RegistrationStore {
    var registrations: seq<Record>

    /** No stored list yet: `JSON.parse(null) || []` gives the empty list. */
    constructor ()
      ensures registrations == []
    {
      registrations := [];
    }

    /** js/main.js's submit: store one record only when every check passes. */
    method Submit(required: seq<bool>, cpf: Option<string>,
                  phone: Option<CheckedField>, cep: Option<CheckedField>,
                  entries: seq<(string, string)>)
      returns (stored: bool)
      modifies this
      ensures stored == AllChecksPass(required, cpf, phone, cep)
      ensures stored ==> registrations == old(registrations) + [ToRecord(entries)]
      ensures stored ==> |registrations| == |old(registrations)| + 1
      ensures |registrations| >= |old(registrations)|
      ensures registrations[..|old(registrations)|] == old(registrations)
      ensures !stored ==> registrations == old(registrations)
    {
      stored := CheckForm(required, cpf, phone, cep);
      if !stored {
        return;
      }
      var data := CollectFormData(entries);
      registrations := registrations + [data];
    }

    /** js/validation.js's submit: store the record whatever the fields hold. */
    method SubmitUnchecked(entries: seq<(string, string)>)
      modifies this
      ensures registrations == old(registrations) + [ToRecord(entries)]
      ensures |registrations| == |old(registrations)| + 1
      ensures registrations[..|old(registrations)|] == old(registrations)
    {
      var data := CollectFormData(entries);
      registrations := registrations + [data];
    }
  }
}
