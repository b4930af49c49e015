# validator — a Dafny model

This project models the core of `index.ts` of the `validator` package, a thin
layer over the `parameter` validation library. It covers three parts:

- **Rule aliases** (`rules.dfy`, `rule_facts.dfy`). Two constant tables
  expand short rule tokens into constraint records:
  - the base table, such as `string` or `int?`;
  - the array table, such as `string[]+` or `obj[]?`.

  `makeValidRule` looks a token up in the base table first, then in the array
  table, then tries the `idCard` case. The caller's attachment is spread
  first and the table entry last, so on a shared key the entry wins. Every
  other token yields the empty record `{}`, and the attachment is dropped.

  The builders `enumRule`, `arrayRule` and `objectRule` install their
  arguments over the attachment in the same way.

  A JavaScript record is a `map<string, Value>`. The spread
  `{ ...a, ...b }` is `a + b`, in which the right operand wins.

  The tables are kept as the sequences of entries of their object literals,
  in source order. The two spellings `required` (base table) and `require`
  (array table) are kept, and so is the odd array token `[]]+?`.

- **The `idCard` check** (`idcard.dfy`, `idcard_facts.dfy`). The input is
  upper-cased, then three checks run in order; the first failure wins:
  - The format must match the pattern of 16 characters, or of 18
    characters with a century `18`, `19` or `20`. On failure the message is
    `idCard format error`.
  - The first two characters must be a region code of the `city` table. On
    failure the message is `idCard address code error`.
  - The last character must be the MOD 11-2 check character of ISO 7064,
    computed from the weighted sum of the first 17 digits. On failure the
    message is `idCard verify bit error`.

  The pattern is written out as a predicate per position. The checksum loop
  is a `for` loop. A well-formed 16-character input reads past its end in
  that loop, which makes the sum `NaN`, so such an input always fails the
  check character. Beyond the source's own promises, the lemmas show:
  - the check character is the ISO 7064 MOD 11-2 condition;
  - the weights are the powers of two modulo 11;
  - the check character catches every change of one of the first 17
    digits, every swap of two neighbouring digits among them, and the swap
    of the 17th digit with a digit check character.

- **The `Validator` facade** (`facade.dfy`, `facade_facts.dfy`). The class
  holds the evaluator and a mutable error handler, which `configure`
  replaces.

  `validate` walks the fields of a rule set in order and checks each one as
  a rule set of its own. It returns the first outcome that throws or returns
  a truthy value. `_validate` works as follows:
  - when the evaluator reports no errors, it yields nothing;
  - when the single-field rule set has a truthy `message`, it hands that
    value to the handler;
  - otherwise it hands the handler `[code] field:field message`, built from
    the first error.

  Two consequences of this code are proved as lemmas:
  - Only a field literally named `message` can supply a custom message, and
    the message it supplies is its own rule.
  - A handler that returns a falsy value lets `validate` go on to the next
    field.

  The `parameter` library's evaluator is a parameter of type
  `(Rule, Value) -> Option<seq<Err>>`. The handler's outcome is a datatype,
  `Returned(value)` or `Threw(error)`.

For an unknown token, `makeValidRule` returns `{}` (index.ts:161): the
attachment is dropped, not passed through. `Rules.MakeValidRule` does the
same (`RuleFacts.UnknownTokenExample`).

## Model

| member | source | states |
|---|---|---|
| Rules.Spread | index.ts:149 | the object spread: the result has the keys of both records, the right record's values win, the left record's values are kept elsewhere |
| Rules.IndexOf | index.ts:148 | `hasOwnProperty` on a table: the position found is the first entry with that token, and the table length is returned exactly when no entry has it |
| Rules.MakeValidRule | index.ts:146-162 | base table first, then array table, then `idCard`: the attachment overridden by the first matching entry; any other token gives `{}` |
| Rules.EnumRule | index.ts:164-166 | the attachment's keys plus `type` and `values`; `type` is `enum`, `values` is the argument, every other attachment key is kept |
| Rules.ArrayRule | index.ts:168-170 | the attachment's keys plus `type`, `itemType` and `rule`; `type` is `array`, the two arguments are installed, every other attachment key is kept |
| Rules.ObjectRule | index.ts:172-174 | the attachment's keys plus `type` and `rule`; `type` is `object`, `rule` is the argument, every other attachment key is kept |
| RuleFacts.BaseEntriesHaveType | index.ts:7-24 | every base-table entry has a non-empty string `type` |
| RuleFacts.ArrayEntriesAreArrays | index.ts:27-61 | every array-table entry has `type: 'array'` and uses only the keys `type`, `require`, `min` and `itemType` |
| RuleFacts.ArrayPlusMeansMinOne | index.ts:27-61 | an array-table entry has `min` exactly when its token contains `+`, and then `min` is 1 |
| RuleFacts.ArrayQuestionMarkMeansOptional | index.ts:27-61 | every array-table entry has `require`, and it is false exactly when the token ends in `?` |
| RuleFacts.ArrayItemTypeFollowsFamily | index.ts:28-60 | the `itemType` of an array-table entry is the element type its token's family names, and it is absent for the `array` and `[]` tokens |
| RuleFacts.SynonymFamilies | index.ts:42-60 | tokens starting `integer[` or `int[` name `int`; tokens starting `obj[` or `object[` name `object`; `array` and `[` tokens name none |
| RuleFacts.ArrayLookupShape | index.ts:27-61 | the entry found for an array token has `type: 'array'`, `require` false exactly when the token ends in `?`, `min` exactly when it contains `+`, and `itemType` `int` for `integer[` tokens and `object` for `obj[` tokens |
| RuleFacts.KnownTokenFixesType | index.ts:146-159 | for every token of either table and for `idCard`, the result has a non-empty string `type`, the same one the token yields with an empty attachment |
| RuleFacts.ResolvesInBaseTable | index.ts:148-150 | a base-table token resolves to the attachment overridden by its entry |
| RuleFacts.TablesDisjoint | index.ts:7-61 | no array-table token is in the base table, so every array token is looked up in the array table |
| RuleFacts.ResolvesInArrayTable | index.ts:152-154 | an array-table token absent from the base table resolves to the attachment overridden by its entry |
| RuleFacts.StringAliasPrecedence | index.ts:17 | `string` resolves to the attachment overridden by `type: 'string'`, `required: true`, `allowEmpty: false`, so an attached `message` stays and an attached `type` does not |
| RuleFacts.StringArrayPlusExample | index.ts:33 | `string[]+` resolves to an array of strings, required, with `min: 1` |
| RuleFacts.StringArrayOptionalExample | index.ts:34 | `string[]?` resolves to an array of strings with `require: false` and no `min` |
| RuleFacts.UnknownTokenExample | index.ts:161 | an unknown token resolves to `{}` and drops the attachment |
| RuleFacts.IdCardInNoTable | index.ts:7-61 | `idCard` is in neither table, so the `switch` decides it |
| RuleFacts.ResolvesInSwitch | index.ts:156-159 | a token in neither table that the `switch` handles resolves to the attachment overridden by `{ type: 'idCard' }` |
| RuleFacts.IdCardToken | index.ts:156-159 | `idCard` resolves to the attachment overridden by `{ type: 'idCard' }` |
| RuleFacts.MisspelledOptionalArrayToken | index.ts:31 | the table spells `[]]+?`, so the token `[]+?` resolves to `{}` |
| IdCard.ToUpper | index.ts:68 | upper-casing keeps the length and maps each character through the ASCII upper-case mapping |
| IdCard.CheckIdCard | index.ts:67-99 | the format error exactly when the upper-cased input fails the pattern; the address error exactly when the format passes and the region is unknown; the verify error exactly when both pass and the check character is wrong; no error exactly when all three pass |
| IdCardFacts.SampleSum | index.ts:84-94 | the weighted sum of `11010519491231002X` is 167 |
| IdCardFacts.SampleAccepted | index.ts:67-99 | `11010519491231002X` passes |
| IdCardFacts.LowerCaseSampleAccepted | index.ts:68 | `11010519491231002x` passes as well |
| IdCardFacts.CaseInsensitive | index.ts:68 | an input passes exactly when its upper-cased form passes |
| IdCardFacts.CheckCharCaseInsensitive | index.ts:68 | an 18-character input with check character `x` passes exactly when the same input with `X` passes |
| IdCardFacts.SampleWrongCheckCharRejected | index.ts:67-99 | the sample with any other last character than `X` or `x` fails |
| IdCardFacts.SampleWrongCheckDigitIsVerifyError | index.ts:95-96 | the sample with another digit as last character passes the format and region checks and fails the check character, so it gets `idCard verify bit error` |
| IdCardFacts.SampleNonDigitLastCharIsFormatError | index.ts:76-77 | the sample with a last character that is neither a digit nor `X`/`x` fails the format, so it gets `idCard format error` |
| IdCardFacts.UnknownRegionExample | index.ts:78-79 | `99010519491231002X` has a valid format and an unknown region |
| IdCardFacts.ShortIdentifierExample | index.ts:90-96 | a well-formed 16-character identifier with a known region fails the check character |
| IdCardFacts.FactorsArePowersOfTwo | index.ts:84 | weight `i` is 2 to the power `17 - i`, modulo 11 |
| IdCardFacts.ParityCompletesSum | index.ts:86 | the parity table's character for `s mod 11` is the one whose value brings `s` to 1 modulo 11 |
| IdCardFacts.CheckDigitIsIso7064 | index.ts:82-97 | the check-character test holds exactly when the weighted sum plus the check value (`X` = 10) is 1 modulo 11 |
| IdCardFacts.WeightedSumDiffersAt | index.ts:90-94 | two digit strings that differ at one position have weighted sums differing by the digit difference times that position's weight |
| IdCardFacts.SingleSubstitutionDetected | index.ts:82-97 | two identifiers that both pass and differ in at most one of the first 17 digits are equal |
| IdCardFacts.AdjacentTranspositionDetected | index.ts:82-97 | two identifiers that both pass and differ by a swap of two neighbouring digits among the first 17 are equal |
| IdCardFacts.CheckCharTranspositionDetected | index.ts:82-97 | two identifiers that both pass and differ by a swap of the 17th digit with the check character are equal |
| Rules.Truthy | index.ts:125 | JavaScript truthiness, as `if (err)` and `if (rule.message)` test it: among the values `Value` can hold, a value is falsy exactly when it is `undefined`, `null`, `false`, `0` or the empty string |
| Facade.CheckRule | index.ts:131-140 | `_validate`: no errors give `undefined`, which never stops `validate`; with errors, a truthy `rule.message` goes to the handler; otherwise an empty error list throws a `TypeError` and a non-empty one hands the handler the first error's `[code] field:field message` |
| Facade.ValidateAll | index.ts:122-129 | the outcome of `validate`: when it does not stop, it is `undefined`; when it stops, it is the outcome of one of the fields |
| Facade.DefaultHandle | index.ts:112-114 | the default handler always throws |
| Facade.Validator.constructor | index.ts:111-116 | the new validator's handler throws an `Error` carrying the message |
| Facade.Validator.Configure | index.ts:118-120 | after `configure`, the handler behaves as the given one |
| Facade.Validator.Validate | index.ts:122-129 | the loop returns what `ValidateAll` specifies for the current evaluator and handler |
| FacadeFacts.FirstStopDecides | index.ts:122-129 | when field `k` stops and no earlier field does, `validate` yields field `k`'s outcome |
| FacadeFacts.NoStopGivesUndefined | index.ts:122-129 | when no field stops, `validate` returns `undefined` |
| FacadeFacts.StopsIffSomeFieldStops | index.ts:122-129 | `validate` throws or returns a truthy value exactly when some field does |
| FacadeFacts.LaterFieldsIgnored | index.ts:123-127 | once a field stops, appending more fields changes nothing |
| FacadeFacts.DefaultHandlerNeverReturnsAValue | index.ts:111-116 | with the default handler, `validate` returns `undefined` or throws |
| FacadeFacts.SilentHandlerReportsNothing | index.ts:125-127 | a handler that never throws and never returns a truthy value makes `validate` return `undefined`, as long as the evaluator never reports an empty error list (which throws a `TypeError` before the handler runs) |
| FacadeFacts.FalsyResultContinues | index.ts:125-127 | a falsy result for the first field hands the decision to the remaining fields |
| FacadeFacts.CustomMessageOnlyForFieldNamedMessage | index.ts:131-139 | for a failing field, the handler gets the field's own rule when the field is named `message` and that rule is truthy, and otherwise the first error's `[code] field:field message` |
| FacadeFacts.MessageKeyDoesNotRelabelOtherFields | index.ts:123-138 | a `message` key beside a failing `name` field does not replace that field's error text |

## Left out

- The `parameter` library is not part of this model. This covers its
  evaluator (`Parameter.validate`), `addRule`, `TYPE_MAP.array` and the
  translation `p.t`. The evaluator is a parameter of the facade, and `p.t`
  is taken as the identity on the message.
- The registration loop at index.ts:62-64 only installs closures into that
  library. Its rule argument is ignored, and each array token checks
  against its own table entry.
- Exceptions are values. A `throw` is the outcome `Threw(error)`. A
  handler's throw passes through `validate` unchanged.
- Rules.Truthy: `Value` numbers are integers, so `NaN`, `-0`, fractional
  numbers and BigInt (`0n`) are not modelled. In JavaScript `NaN`, `-0` and
  `0n` are falsy too, so a handler that returns `NaN` (index.ts:125) or a
  `message` rule equal to `NaN` (index.ts:134) is outside the model.
- Facade.Evaluator: the evaluator returns a value and cannot throw. In the
  source, `parameter.validate` can throw, for example when the `idCard`
  closure calls `toUpperCase` on a non-string value (index.ts:68), and
  `validate` passes that throw on to its caller. Only the handler's throw
  is modelled.
- The province names of the `city` table are left out; only its keys are
  kept.
- IdCard.ToUpper: upper-cases ASCII letters only. The other letters
  `toUpperCase` maps, and the way it can change a string's length, are not
  modelled.
- IdCard.CheckIdCard: takes a string. The JavaScript coercion of each
  character in `ai * wi` becomes the digit's value, or `NaN` for a missing
  or non-digit character. A non-string input, on which `toUpperCase`
  throws, is not modelled.
- Facade.Validator.Validate: takes the rule set as the sequence of its
  fields in `for...in` order. Enumeration order of JavaScript objects
  (integer-like keys first), inherited enumerable keys and non-object rule
  sets are not modelled.
- Facade.CheckRule: the thrown `TypeError` for an empty error list, and the
  `Error` thrown by the default handler, are plain records, not JavaScript
  error objects.
- The builders' default arguments (`attachRule = {}`, `rule = {}`) are not
  modelled; every argument is explicit. A default attachment is the call
  with `map[]`. For Rules.ArrayRule, whose `rule` is a `Value`, the default
  `rule` is `Obj(map[])`. Passing `undefined` explicitly in JavaScript also
  takes the default, so it gives `rule: {}`, whereas `ArrayRule(t, Undefined, a)`
  installs `rule: undefined`.
- The module-level `validator` instance at index.ts:144 is one call of
  `Facade.Validator.constructor`.
- Integers are unbounded. The weights add up to 100, so the weighted sum of
  17 digits is at most 900, and no JavaScript number precision is involved.
