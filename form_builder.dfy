/**
 * The generic form component: the form state it keeps, how a field change
 * updates it, the validation pass over the field descriptions, and the
 * submit that only goes through on a valid form.
 */
module FormBuilder {
  import opened Wrappers
  import opened JsText

  /** The values a form field can hold, as far as validation can tell them apart. */
  datatype Value = Undefined | Null | Boolean(b: bool) | Number(n: int) | NaN | Text(s: string)

  /** JavaScript truthiness: `undefined`, `null`, `false`, `0`, `NaN` and `''` are falsy. */
  predicate Truthy(v: Value) {
    match v
    case Undefined => false
    case Null => false
    case Boolean(b) => b
    case Number(n) => n != 0
    case NaN => false
    case Text(s) => s != ""
  }

  datatype FieldType = TextInput | Email | Password | NumberInput | SelectInput | TextArea | DateInput | Checkbox

  /** A field description; `validation` is the optional custom check. */
  datatype FormField = FormField(
    name: string,
    fieldType: FieldType,
    labelText: string,
    required: bool,
    validation: Option<Value -> Option<string>>)

  /** `formData[field.name]`: a missing key reads as `undefined`. */
  function Lookup(data: map<string, Value>, name: string): Value {
    if name in data then data[name] else Undefined
  }

  /** The required check: a falsy value, or a string that is only whitespace. */
  predicate IsBlank(v: Value) {
    !Truthy(v) || (v.Text? && Trim(v.s) == "")
  }

  /**
   * What the `forEach` callback of `validateForm` records for one field:
   * the required message and nothing else for a blank required field;
   * otherwise the custom validator's result, if it is a non-empty string,
   * when there is a validator and the value is truthy.
   */
  function FieldError(field: FormField, v: Value): (e: Option<string>)
    ensures field.required && IsBlank(v) ==> e == Some(field.labelText + " is required")
    ensures e.Some? && !(field.required && IsBlank(v)) ==>
      field.validation.Some? && Truthy(v) && field.validation.value(v) == e && e.value != ""
    ensures !field.required && !Truthy(v) ==> e.None?
  {
    if field.required && IsBlank(v) then Some(field.labelText + " is required")
    else if field.validation.Some? && Truthy(v) then
      var r := field.validation.value(v);
      if r.Some? && r.value != "" then r else None
    else None
  }

  /** `newErrors` after the callback has run on `fields`, in order. */
  function Errors(fields: seq<FormField>, data: map<string, Value>): map<string, string>
    decreases |fields|
  {
    if |fields| == 0 then map[]
    else
      var acc := Errors(fields[..|fields| - 1], data);
      var f := fields[|fields| - 1];
      match FieldError(f, Lookup(data, f.name))
      case None => acc
      case Some(e) => acc[f.name := e]
  }

  /** Some field produced an error. */
  predicate AnyError(fields: seq<FormField>, data: map<string, Value>) {
    exists i :: 0 <= i < |fields| && FieldError(fields[i], Lookup(data, fields[i].name)).Some?
  }

  /** The error map is empty exactly when no field produced an error. */
  lemma {:induction false} ErrorsEmptyIff(fields: seq<FormField>, data: map<string, Value>)
    ensures Errors(fields, data) == map[] <==> !AnyError(fields, data)
    decreases |fields|
  {
    if |fields| > 0 {
      var front, f := fields[..|fields| - 1], fields[|fields| - 1];
      ErrorsEmptyIff(front, data);
      if AnyError(front, data) {
        var i :| 0 <= i < |front| && FieldError(front[i], Lookup(data, front[i].name)).Some?;
        assert fields[i] == front[i];
        ErrorKeysStay(front, data, f);
      } else if AnyError(fields, data) {
        assert f.name in Errors(fields, data);
      }
    }
  }

  /** A key already holding an error keeps one when a later field is checked. */
  lemma ErrorKeysStay(front: seq<FormField>, data: map<string, Value>, f: FormField)
    requires Errors(front, data) != map[]
    ensures Errors(front + [f], data) != map[]
  {
    var k :| k in Errors(front, data);
    assert (front + [f])[..|front|] == front;
    assert k in Errors(front + [f], data);
  }

  /** Field names no two fields share. */
  predicate NamesDistinct(fields: seq<FormField>) {
    forall i, j :: 0 <= i < j < |fields| ==> fields[i].name != fields[j].name
  }

  /**
   * With distinct field names, each field's entry of the error map is
   * exactly that field's error, and no other key appears.
   */
  lemma {:induction false} ErrorOfField(fields: seq<FormField>, data: map<string, Value>, i: int)
    requires NamesDistinct(fields) && 0 <= i < |fields|
    ensures var e := FieldError(fields[i], Lookup(data, fields[i].name));
      (fields[i].name in Errors(fields, data) <==> e.Some?) &&
      (e.Some? ==> Errors(fields, data)[fields[i].name] == e.value)
    decreases |fields|
  {
    var front, f := fields[..|fields| - 1], fields[|fields| - 1];
    if i < |front| {
      assert front[i] == fields[i];
      ErrorOfField(front, data, i);
      assert f.name != fields[i].name;
    } else if f.name in Errors(front, data) {
      ErrorKeysAreFieldNames(front, data, f.name);
    }
  }

  /** Every key of the error map is the name of some field. */
  lemma {:induction false} ErrorKeysAreFieldNames(fields: seq<FormField>, data: map<string, Value>, k: string)
    requires k in Errors(fields, data)
    ensures exists i :: 0 <= i < |fields| && fields[i].name == k
    decreases |fields|
  {
    var front, f := fields[..|fields| - 1], fields[|fields| - 1];
    if k != f.name {
      ErrorKeysAreFieldNames(front, data, k);
      var i :| 0 <= i < |front| && front[i].name == k;
      assert fields[i] == front[i];
    }
  }

  /** A required field holding `0` or `false` is reported as missing, as JavaScript's `!value` has it. */
  lemma FalsyNumbersAreMissing(field: FormField)
    requires field.required
    ensures FieldError(field, Number(0)) == Some(field.labelText + " is required")
    ensures FieldError(field, Boolean(false)) == Some(field.labelText + " is required")
  {
  }

  /** A required text field of spaces, tabs or line breaks is reported as missing. */
  lemma WhitespaceIsMissing(field: FormField, s: string)
    requires field.required && forall i :: 0 <= i < |s| ==> IsJsWhitespace(s[i])
    ensures FieldError(field, Text(s)) == Some(field.labelText + " is required")
  {
    TrimEmptyIff(s);
  }

  /** The component's state. */
  class Form {
    var formData: map<string, Value>
    var errors: map<string, string>

    /** The form opens on `initialData` with no errors. */
    constructor (initialData: map<string, Value>)
      ensures formData == initialData && errors == map[]
    {
      formData := initialData;
      errors := map[];
    }

    /** `handleFieldChange`: sets the one key, and blanks that field's error if it had one. */
    method HandleFieldChange(name: string, value: Value)
      modifies this
      ensures formData == old(formData)[name := value]
      ensures name in old(errors) && old(errors)[name] != "" ==> errors == old(errors)[name := ""]
      ensures !(name in old(errors) && old(errors)[name] != "") ==> errors == old(errors)
    {
      formData := formData[name := value];
      if name in errors && errors[name] != "" {
        errors := errors[name := ""];
      }
    }

    /** `validateForm`: one pass over the fields collecting `newErrors`, which replaces `errors`. */
    method ValidateForm(fields: seq<FormField>) returns (valid: bool)
      modifies this
      ensures formData == old(formData)
      ensures errors == Errors(fields, formData)
      ensures valid <==> !AnyError(fields, formData)
    {
      var newErrors: map<string, string> := map[];
      var i := 0;
      while i < |fields|
        invariant 0 <= i <= |fields|
        invariant newErrors == Errors(fields[..i], formData)
      {
        var field := fields[i];
        var value := Lookup(formData, field.name);
        assert fields[..i + 1][..i] == fields[..i];
        if field.required && IsBlank(value) {
          newErrors := newErrors[field.name := field.labelText + " is required"];
        } else if field.validation.Some? && Truthy(value) {
          var error := field.validation.value(value);
          if error.Some? && error.value != "" {
            newErrors := newErrors[field.name := error.value];
          }
        }
        i := i + 1;
      }
      assert fields[..i] == fields;
      errors := newErrors;
      ErrorsEmptyIff(fields, formData);
      valid := |newErrors| == 0;
    }

    /** `handleSubmit`: the form data is handed on only when validation passes. */
    method HandleSubmit(fields: seq<FormField>) returns (submitted: Option<map<string, Value>>)
      modifies this
      ensures formData == old(formData)
      ensures errors == Errors(fields, formData)
      ensures submitted.Some? <==> !AnyError(fields, formData)
      ensures submitted.Some? ==> submitted.value == formData
    {
      var valid := ValidateForm(fields);
      if valid {
        submitted := Some(formData);
      } else {
        submitted := None;
      }
    }
  }
}
