/**
 * What `validate` returns: the first field that stops decides, later
 * fields are never looked at, and the quirks of the custom message and
 * of handlers that return a falsy value.
 */
module FacadeFacts {
  import opened Wrappers
  import opened Rules
  import opened Facade

  /** The field `f` stops `validate`. */
  predicate FieldStops(ev: Evaluator, h: ErrHandle, f: Field, data: Value)
  {
    Stops(CheckRule(ev, h, SingleRule(f), data))
  }

  /** The first field that stops decides the outcome. */
  lemma {:induction false} FirstStopDecides(ev: Evaluator, h: ErrHandle, rules: seq<Field>, data: Value, k: nat)
    requires k < |rules| && FieldStops(ev, h, rules[k], data)
    requires forall j :: 0 <= j < k ==> !FieldStops(ev, h, rules[j], data)
    ensures ValidateAll(ev, h, rules, data) == CheckRule(ev, h, SingleRule(rules[k]), data)
    decreases k
  {
    if k > 0 {
      FirstStopDecides(ev, h, rules[1..], data, k - 1);
    }
  }

  /** When no field stops, `validate` returns `undefined`. */
  lemma {:induction false} NoStopGivesUndefined(ev: Evaluator, h: ErrHandle, rules: seq<Field>, data: Value)
    requires forall j :: 0 <= j < |rules| ==> !FieldStops(ev, h, rules[j], data)
    ensures ValidateAll(ev, h, rules, data) == Returned(Undefined)
    decreases |rules|
  {
    if rules != [] {
      NoStopGivesUndefined(ev, h, rules[1..], data);
    }
  }

  /** `validate` stops exactly when some field stops. */
  lemma {:induction false} StopsIffSomeFieldStops(ev: Evaluator, h: ErrHandle, rules: seq<Field>, data: Value)
    ensures Stops(ValidateAll(ev, h, rules, data)) <==> exists j :: 0 <= j < |rules| && FieldStops(ev, h, rules[j], data)
    decreases |rules|
  {
    if rules != [] {
      StopsIffSomeFieldStops(ev, h, rules[1..], data);
      if !FieldStops(ev, h, rules[0], data) {
        assert forall j :: 1 <= j < |rules| ==> rules[j] == rules[1..][j - 1];
      }
    }
  }

  /** Fields after the first one that stops are never evaluated: appending fields changes nothing. */
  lemma {:induction false} LaterFieldsIgnored(ev: Evaluator, h: ErrHandle, rules: seq<Field>, more: seq<Field>, data: Value, k: nat)
    requires k < |rules| && FieldStops(ev, h, rules[k], data)
    ensures ValidateAll(ev, h, rules + more, data) == ValidateAll(ev, h, rules, data)
    decreases |rules|
  {
    assert (rules + more)[0] == rules[0];
    if !FieldStops(ev, h, rules[0], data) {
      assert (rules + more)[1..] == rules[1..] + more;
      LaterFieldsIgnored(ev, h, rules[1..], more, data, k - 1);
    }
  }

  /** With the default handler, `validate` returns `undefined` or throws. */
  lemma {:induction false} DefaultHandlerNeverReturnsAValue(ev: Evaluator, rules: seq<Field>, data: Value)
    ensures var o := ValidateAll(ev, DefaultHandle, rules, data); o == Returned(Undefined) || o.Threw?
    decreases |rules|
  {
    if rules != [] {
      DefaultHandlerNeverReturnsAValue(ev, rules[1..], data);
    }
  }

  /**
   * A handler that never throws and never returns a truthy value makes
   * `validate` report nothing, whatever the data, as long as the evaluator
   * never answers with an empty error list.
   */
  lemma SilentHandlerReportsNothing(ev: Evaluator, h: ErrHandle, rules: seq<Field>, data: Value)
    requires forall msg :: !Stops(h(msg))
    requires forall j :: 0 <= j < |rules| ==> ev(SingleRule(rules[j]), data) != Some([])
    ensures ValidateAll(ev, h, rules, data) == Returned(Undefined)
  {
    forall j | 0 <= j < |rules|
      ensures !FieldStops(ev, h, rules[j], data)
    {
    }
    NoStopGivesUndefined(ev, h, rules, data);
  }

  /**
   * Since each field is checked as a rule set of its own, the handler gets
   * a custom message only for a field named `message` whose rule is truthy,
   * and that message is the field's rule; every other failing field hands
   * over the text of its first error.
   */
  lemma CustomMessageOnlyForFieldNamedMessage(ev: Evaluator, h: ErrHandle, f: Field, data: Value, e: Err, rest: seq<Err>)
    requires ev(SingleRule(f), data) == Some([e] + rest)
    ensures f.name == "message" && Truthy(f.rule) ==> CheckRule(ev, h, SingleRule(f), data) == h(f.rule)
    ensures !(f.name == "message" && Truthy(f.rule)) ==> CheckRule(ev, h, SingleRule(f), data) == h(Str(ErrorText(e)))
  {
  }

  lemma SampleErrorText()
    ensures ErrorText(Err("name", "missing_field", "required")) == "[missing_field] field:name required"
  {
  }

  /**
   * A `message` key next to other fields does not relabel their failures:
   * a failing `name` field, listed first, is reported by its own error text.
   */
  lemma MessageKeyDoesNotRelabelOtherFields(ev: Evaluator, h: ErrHandle, data: Value)
    requires ev(map["name" := Str("string")], data) == Some([Err("name", "missing_field", "required")])
    requires Stops(h(Str("[missing_field] field:name required")))
    ensures ValidateAll(ev, h, [Field("name", Str("string")), Field("message", Str("bad"))], data)
         == h(Str("[missing_field] field:name required"))
  {
    var rules := [Field("name", Str("string")), Field("message", Str("bad"))];
    assert SingleRule(rules[0]) == map["name" := Str("string")];
    SampleErrorText();
    FirstStopDecides(ev, h, rules, data, 0);
  }

  /** A handler whose result is falsy lets `validate` go on to the next field. */
  lemma FalsyResultContinues(ev: Evaluator, h: ErrHandle, f: Field, rest: seq<Field>, data: Value)
    requires CheckRule(ev, h, SingleRule(f), data).Returned?
    requires !Truthy(CheckRule(ev, h, SingleRule(f), data).value)
    ensures ValidateAll(ev, h, [f] + rest, data) == ValidateAll(ev, h, rest, data)
  {
    assert ([f] + rest)[1..] == rest;
  }
}
