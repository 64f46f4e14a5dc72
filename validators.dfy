/** The front end's form validation: the individual validators and `validateForm`, which
    records for each field the message of its first failing rule. */
module Validators {
  import opened Wrappers

  /** A form value: a string, or one of the two missing values. */
  datatype Value = Null | Undefined | Str(s: string)

  /** The text a value turns into where a string is expected (`String(value)`). */
  function TextOf(v: Value): string {
    match v
    case Null => "null"
    case Undefined => "undefined"
    case Str(s) => s
  }

  /** JavaScript truthiness of a value. */
  predicate Truthy(v: Value) {
    v.Str? && v.s != ""
  }

  // ---------------------------------------------------------------- validators

  /** `password`: at least six characters. */
  predicate Password(v: Value) {
    Truthy(v) && |v.s| >= 6
  }

  /** `studentId`: at least three characters. */
  predicate StudentId(v: Value) {
    Truthy(v) && |v.s| >= 3
  }

  /** `required`: anything but null, undefined and the empty string. */
  predicate Required(v: Value) {
    v != Null && v != Undefined && v != Str("")
  }

  /** `minLength`: a non-empty string of at least `min` characters. */
  predicate MinLength(v: Value, min: int) {
    Truthy(v) && |v.s| >= min
  }

  /** `maxLength` as written: the empty string is falsy, so it fails whatever the maximum. */
  predicate MaxLengthAsWritten(v: Value, max: int) {
    Truthy(v) && |v.s| <= max
  }

  lemma EmptyFailsMaxLength()
    ensures !MaxLengthAsWritten(Str(""), 10)
    ensures MaxLength(Str(""), 10)
  {
  }

  /** `maxLength` as evidently intended: a string no longer than `max`. */
  predicate MaxLength(v: Value, max: int) {
    v.Str? && |v.s| <= max
  }

  /** The two agree on every non-empty string. */
  lemma MaxLengthAgreesOnNonEmpty(s: string, max: int)
    requires s != ""
    ensures MaxLengthAsWritten(Str(s), max) == MaxLength(Str(s), max)
  {
  }

  predicate IsAlphanumeric(c: char) {
    'a' <= c <= 'z' || 'A' <= c <= 'Z' || '0' <= c <= '9'
  }

  /** `alphanumeric`: the value's text is non-empty and made of letters and digits only. The
      missing values turn into the words "null" and "undefined", which pass. */
  predicate Alphanumeric(v: Value) {
    var t := TextOf(v);
    t != "" && forall i :: 0 <= i < |t| ==> IsAlphanumeric(t[i])
  }

  /** The validators in the terms of their lengths, and the missing values that pass. */
  lemma ValidatorLengths(v: Value)
    ensures Password(v) <==> v.Str? && |v.s| >= 6
    ensures StudentId(v) <==> v.Str? && |v.s| >= 3
    ensures Required(v) <==> Truthy(v)
    ensures Alphanumeric(Null) && Alphanumeric(Undefined)
  {
    assert forall i :: 0 <= i < |"null"| ==> IsAlphanumeric("null"[i]);
    assert forall i :: 0 <= i < |"undefined"| ==> IsAlphanumeric("undefined"[i]);
  }

  // ---------------------------------------------------------------- validateForm

  /** A rule: an optional validator and the message shown when it fails. */
  datatype Rule = Rule(validator: Option<Value -> bool>, message: string)

  /** The rules of one field of the form. */
  datatype FieldRules = FieldRules(field: string, rules: seq<Rule>)

  predicate Fails(r: Rule, v: Value) {
    r.validator.Some? && !r.validator.value(v)
  }

  /** The message of the first rule that fails, when one does. */
  function FirstFailure(rules: seq<Rule>, v: Value): Option<string> {
    if rules == [] then None
    else if Fails(rules[0], v) then Some(rules[0].message)
    else FirstFailure(rules[1..], v)
  }

  /** The value of a field; a field the form lacks is undefined. */
  function ValueOf(formData: map<string, Value>, field: string): Value {
    if field in formData then formData[field] else Undefined
  }

  /** The errors after checking the first fields of `rules`. */
  function Errors(rules: seq<FieldRules>, formData: map<string, Value>): map<string, string> {
    if rules == [] then map[]
    else
      var e, f := Errors(rules[..|rules| - 1], formData), rules[|rules| - 1];
      match FirstFailure(f.rules, ValueOf(formData, f.field))
      case None => e
      case Some(m) => e[f.field := m]
  }

  /** A form's rules name each field once, as the keys of an object do. */
  predicate DistinctFields(rules: seq<FieldRules>) {
    forall i, j :: 0 <= i < j < |rules| ==> rules[i].field != rules[j].field
  }

  datatype Validation = Validation(isValid: bool, errors: map<string, string>)

  /** `validateForm`: for each field, the rules in order until one fails. */
  method ValidateForm(formData: map<string, Value>, rules: seq<FieldRules>) returns (result: Validation)
    ensures result.errors == Errors(rules, formData)
    ensures result.isValid <==> result.errors == map[]
  {
    var errors: map<string, string> := map[];
    var i := 0;
    while i < |rules|
      invariant 0 <= i <= |rules|
      invariant errors == Errors(rules[..i], formData)
    {
      assert rules[..i + 1][..i] == rules[..i];
      var field := rules[i].field;
      var value := ValueOf(formData, field);
      var fieldRules := rules[i].rules;
      var j := 0;
      while j < |fieldRules|
        invariant 0 <= j <= |fieldRules|
        invariant FirstFailure(fieldRules, value) == FirstFailure(fieldRules[j..], value)
        invariant errors == Errors(rules[..i], formData)
      {
        var rule := fieldRules[j];
        if rule.validator.Some? && !rule.validator.value(value) {
          errors := errors[field := rule.message];
          break;
        }
        assert fieldRules[j..][1..] == fieldRules[j + 1..];
        j := j + 1;
      }
      i := i + 1;
    }
    assert rules[..i] == rules;
    return Validation(|errors| == 0, errors);
  }

  /** The first failing rule decides the message: a field's message is that of a failing rule
      that every earlier rule of the field passes; a field none of whose rules fail has none. */
  lemma {:induction false} FirstFailureIsFirst(rules: seq<Rule>, v: Value)
    ensures FirstFailure(rules, v).None? <==> forall k :: 0 <= k < |rules| ==> !Fails(rules[k], v)
    ensures FirstFailure(rules, v).Some? ==>
              exists k :: 0 <= k < |rules| && Fails(rules[k], v) && rules[k].message == FirstFailure(rules, v).value &&
                forall j :: 0 <= j < k ==> !Fails(rules[j], v)
  {
    if rules != [] {
      FirstFailureIsFirst(rules[1..], v);
      if !Fails(rules[0], v) && FirstFailure(rules, v).Some? {
        var k :| 0 <= k < |rules[1..]| && Fails(rules[1..][k], v) && rules[1..][k].message == FirstFailure(rules, v).value &&
                 forall j :: 0 <= j < k ==> !Fails(rules[1..][j], v);
        assert Fails(rules[k + 1], v) && forall j :: 0 <= j < k + 1 ==> !Fails(rules[j], v);
      }
    }
  }

  /** Exactly the fields with a failing rule have an error, and it is that field's first
      failure. */
  lemma {:induction false} ErrorsAreFirstFailures(rules: seq<FieldRules>, formData: map<string, Value>, k: nat)
    requires DistinctFields(rules) && k < |rules|
    ensures var e, f := Errors(rules, formData), rules[k];
            (f.field in e <==> FirstFailure(f.rules, ValueOf(formData, f.field)).Some?) &&
            (f.field in e ==> e[f.field] == FirstFailure(f.rules, ValueOf(formData, f.field)).value)
  {
    var p := rules[..|rules| - 1];
    if k < |rules| - 1 {
      assert rules[k] == p[k] && rules[|rules| - 1].field != rules[k].field;
      assert DistinctFields(p);
      ErrorsAreFirstFailures(p, formData, k);
    } else {
      UnruledFieldHasNoError(p, formData, rules[k].field);
    }
  }

  /** A field no rule names never has an error. */
  lemma {:induction false} UnruledFieldHasNoError(rules: seq<FieldRules>, formData: map<string, Value>, field: string)
    requires forall k :: 0 <= k < |rules| ==> rules[k].field != field
    ensures field !in Errors(rules, formData)
  {
    if rules != [] {
      UnruledFieldHasNoError(rules[..|rules| - 1], formData, field);
    }
  }

  /** Every error belongs to a field of the rules. */
  lemma {:induction false} ErrorsOnlyForRuledFields(rules: seq<FieldRules>, formData: map<string, Value>, field: string)
    requires field in Errors(rules, formData)
    ensures exists k :: 0 <= k < |rules| && rules[k].field == field
  {
    var p := rules[..|rules| - 1];
    if field in Errors(p, formData) {
      ErrorsOnlyForRuledFields(p, formData, field);
      var k :| 0 <= k < |p| && p[k].field == field;
      assert rules[k] == p[k];
    } else {
      assert rules[|rules| - 1].field == field;
    }
  }

  /** The form is valid exactly when no rule of any field fails. */
  lemma ValidIffNoRuleFails(rules: seq<FieldRules>, formData: map<string, Value>)
    requires DistinctFields(rules)
    ensures Errors(rules, formData) == map[] <==>
              forall k :: 0 <= k < |rules| ==> FirstFailure(rules[k].rules, ValueOf(formData, rules[k].field)).None?
  {
    var e := Errors(rules, formData);
    if e != map[] {
      var field :| field in e;
      ErrorsOnlyForRuledFields(rules, formData, field);
      var k :| 0 <= k < |rules| && rules[k].field == field;
      ErrorsAreFirstFailures(rules, formData, k);
    } else {
      forall k | 0 <= k < |rules|
        ensures FirstFailure(rules[k].rules, ValueOf(formData, rules[k].field)).None?
      {
        ErrorsAreFirstFailures(rules, formData, k);
      }
    }
  }
}
