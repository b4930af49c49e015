/**
 * The `Validator` facade: it checks a rule set one field at a time with the
 * underlying evaluator and hands the first failure to a configurable error
 * handler, whose outcome (a returned value or a thrown one) it passes on.
 *
 * The evaluator is a parameter: it is the external parameter library, and
 * it answers `None` (`undefined`) when the data satisfies a rule, or the
 * list of errors it found.
 */
module Facade {
  import opened Wrappers
  import opened Rules

  /** One error reported by the evaluator. */
  datatype Err = Err(field: string, code: string, message: string)

  /** What a call does: return a value, or throw one. */
  datatype Outcome = Returned(value: Value) | Threw(error: Value)

  /** `parameter.validate(rule, data)`. */
  type Evaluator = (Rule, Value) -> Option<seq<Err>>

  /** An error handler: it receives the message and returns or throws. */
  type ErrHandle = Value -> Outcome

  /** One key of the rule set with its rule, in the order `for...in` visits them. */
  datatype Field = Field(name: string, rule: Value)

  /** What `throw new Error(msg)` throws. */
  function ErrorObject(msg: Value): Value
  {
    Obj(map["name" := Str("Error"), "message" := msg])
  }

  /** What reading `code` of `undefined` throws. */
  const TypeErrorObject: Value := Obj(map["name" := Str("TypeError")])

  /** The handler installed by the constructor: it throws an `Error` carrying the message. */
  function DefaultHandle(msg: Value): (o: Outcome)
    ensures o.Threw?
  {
    Threw(ErrorObject(msg))
  }

  /** The message built for the first error: `[code] field:name message`. */
  function ErrorText(e: Err): string
  {
    "[" + e.code + "] field:" + e.field + " " + e.message
  }

  /** `validate` stops at an outcome that throws, or that returns a truthy value. */
  predicate Stops(o: Outcome)
  {
    o.Threw? || Truthy(o.value)
  }

  /** `{ [field]: rules[field] }`: the rule set holding one field. */
  function SingleRule(f: Field): Rule
  {
    map[f.name := f.rule]
  }

  /** `rule.message` is truthy. */
  predicate HasCustomMessage(rule: Rule)
  {
    "message" in rule && Truthy(rule["message"])
  }

  /**
   * `_validate(rule, data)`: nothing when the evaluator finds no error;
   * otherwise the handler applied to the rule set's truthy `message`, or
   * else to the text of the first error. An empty error list is truthy,
   * so the destructuring reads `code` of `undefined` and throws.
   */
  function CheckRule(ev: Evaluator, h: ErrHandle, rule: Rule, data: Value): (o: Outcome)
    ensures ev(rule, data).None? ==> o == Returned(Undefined) && !Stops(o)
    ensures ev(rule, data).Some? && HasCustomMessage(rule) ==> o == h(rule["message"])
    ensures ev(rule, data) == Some([]) && !HasCustomMessage(rule) ==> o == Threw(TypeErrorObject) && Stops(o)
    ensures ev(rule, data).Some? && ev(rule, data).value != [] && !HasCustomMessage(rule) ==>
              o == h(Str(ErrorText(ev(rule, data).value[0])))
  {
    match ev(rule, data)
    case None => Returned(Undefined)
    case Some(errors) =>
      if HasCustomMessage(rule) then h(rule["message"])
      else if errors == [] then Threw(TypeErrorObject)
      else h(Str(ErrorText(errors[0])))
  }

  /** `validate(rules, data)`: the outcome of the first field that stops, else `undefined`. */
  function ValidateAll(ev: Evaluator, h: ErrHandle, rules: seq<Field>, data: Value): (o: Outcome)
    ensures !Stops(o) ==> o == Returned(Undefined)
    ensures Stops(o) ==> exists j :: 0 <= j < |rules| && o == CheckRule(ev, h, SingleRule(rules[j]), data)
    decreases |rules|
  {
    if rules == [] then Returned(Undefined)
    else
      var o := CheckRule(ev, h, SingleRule(rules[0]), data);
      if Stops(o) then o else ValidateAll(ev, h, rules[1..], data)
  }

  /** The facade, holding the evaluator and the current error handler. */
  class Validator {
    const evaluator: Evaluator
    var errHandle: ErrHandle

    /** A validator whose handler throws every message as an `Error`. */
    constructor(evaluator: Evaluator)
      ensures this.evaluator == evaluator
      ensures forall msg :: errHandle(msg) == DefaultHandle(msg)
    {
      this.evaluator := evaluator;
      errHandle := DefaultHandle;
    }

    /** Replace the error handler. */
    method Configure(h: ErrHandle)
      modifies this`errHandle
      ensures forall msg :: errHandle(msg) == h(msg)
    {
      errHandle := h;
    }

    /** Check the fields of `rules` in order and stop at the first one whose outcome stops. */
    method Validate(rules: seq<Field>, data: Value) returns (o: Outcome)
      ensures o == ValidateAll(evaluator, errHandle, rules, data)
    {
      var i := 0;
      while i < |rules|
        invariant 0 <= i <= |rules|
        invariant ValidateAll(evaluator, errHandle, rules, data) == ValidateAll(evaluator, errHandle, rules[i..], data)
      {
        var err := CheckRule(evaluator, errHandle, SingleRule(rules[i]), data);
        if Stops(err) {
          return err;
        }
        assert rules[i..][1..] == rules[i + 1..];
        i := i + 1;
      }
      return Returned(Undefined);
    }
  }
}
