/**
 * Rule aliases: the two constant tables that expand short rule tokens
 * ("string?", "int[]+", ...) into constraint records, the lookup
 * `makeValidRule`, and the builders `enumRule`, `arrayRule`, `objectRule`.
 *
 * A JavaScript record is a `map<string, Value>`; the object spread
 * `{ ...left, ...right }` is map union in which the right operand wins.
 */
module Rules {
  import opened Wrappers

  /** The JavaScript values that appear in rule records and rule sets. */
  datatype Value =
    | Undefined
    | Null
    | Bool(b: bool)
    | Num(n: int)
    | Str(s: string)
    | List(items: seq<Value>)
    | Obj(fields: map<string, Value>)

  /** A constraint record, such as `{ type: 'int', required: true }`. */
  type Rule = map<string, Value>

  /**
   * JavaScript truthiness: `if (v)` takes the branch exactly when this
   * holds. The falsy values are the five listed (`NaN`, `-0` and `0n` have
   * no counterpart in `Value`).
   */
  predicate Truthy(v: Value): (b: bool)
    ensures !b <==> v in {Undefined, Null, Bool(false), Num(0), Str("")}
  {
    match v
    case Undefined => false
    case Null => false
    case Bool(b) => b
    case Num(n) => n != 0
    case Str(s) => s != ""
    case List(_) => true
    case Obj(_) => true
  }

  /** `r` is `base` with every key of `over` set to `over`'s value. */
  predicate Overrides(r: Rule, base: Rule, over: Rule)
  {
    && r.Keys == base.Keys + over.Keys
    && (forall k :: k in over ==> r[k] == over[k])
    && (forall k :: k in base && k !in over ==> r[k] == base[k])
  }

  /** The object spread `{ ...left, ...right }`. */
  function Spread(left: Rule, right: Rule): (r: Rule)
    ensures Overrides(r, left, right)
  {
    left + right
  }

  /**
   * A constant table, as the entries of its object literal in source order.
   * `hasOwnProperty` on the literal becomes `IndexOf`; no token occurs twice.
   */
  type Table = seq<(string, Rule)>

  /** The base table (`baseRuleMap`); note that it spells the key `required`. */
  const BaseRuleMap: Table := [
    ("int", map["type" := Str("int"), "required" := Bool(true)]),
    ("int?", map["type" := Str("int"), "required" := Bool(false)]),
    ("integer", map["type" := Str("integer"), "required" := Bool(true)]),
    ("number", map["type" := Str("number"), "required" := Bool(true)]),
    ("date", map["type" := Str("date"), "required" := Bool(true)]),
    ("dateTime", map["type" := Str("dateTime"), "required" := Bool(true)]),
    ("id", map["type" := Str("id"), "required" := Bool(true)]),
    ("boolean", map["type" := Str("boolean"), "required" := Bool(true)]),
    ("bool", map["type" := Str("bool"), "required" := Bool(true)]),
    ("string", map["type" := Str("string"), "required" := Bool(true), "allowEmpty" := Bool(false)]),
    ("string?", map["type" := Str("string"), "required" := Bool(false), "allowEmpty" := Bool(true)]),
    ("email", map["type" := Str("email"), "required" := Bool(true), "allowEmpty" := Bool(false)]),
    ("password", map["type" := Str("password"), "required" := Bool(true), "allowEmpty" := Bool(false), "min" := Num(6)]),
    ("object", map["type" := Str("object"), "required" := Bool(true)]),
    ("array", map["type" := Str("array"), "required" := Bool(true)]),
    ("enum", map["type" := Str("enum")])
  ]

  /**
   * The array table (`arrayRuleMap`); it spells the key `require`, and its
   * fourth token really is "[]]+?".
   */
  const ArrayRuleMap: Table := [
    ("array+", map["type" := Str("array"), "min" := Num(1), "require" := Bool(true)]),
    ("array+?", map["type" := Str("array"), "min" := Num(1), "require" := Bool(false)]),
    ("[]+", map["type" := Str("array"), "min" := Num(1), "require" := Bool(true)]),
    ("[]]+?", map["type" := Str("array"), "min" := Num(1), "require" := Bool(false)]),
    ("string[]", map["type" := Str("array"), "itemType" := Str("string"), "require" := Bool(true)]),
    ("string[]+", map["type" := Str("array"), "itemType" := Str("string"), "require" := Bool(true), "min" := Num(1)]),
    ("string[]?", map["type" := Str("array"), "itemType" := Str("string"), "require" := Bool(false)]),
    ("string[]+?", map["type" := Str("array"), "itemType" := Str("string"), "require" := Bool(false), "min" := Num(1)]),
    ("number[]", map["type" := Str("array"), "itemType" := Str("number"), "require" := Bool(true)]),
    ("number[]+", map["type" := Str("array"), "itemType" := Str("number"), "require" := Bool(true), "min" := Num(1)]),
    ("number[]?", map["type" := Str("array"), "itemType" := Str("number"), "require" := Bool(false)]),
    ("number[]+?", map["type" := Str("array"), "itemType" := Str("number"), "require" := Bool(false), "min" := Num(1)]),
    ("int[]", map["type" := Str("array"), "itemType" := Str("int"), "require" := Bool(true)]),
    ("int[]+", map["type" := Str("array"), "itemType" := Str("int"), "require" := Bool(true), "min" := Num(1)]),
    ("int[]?", map["type" := Str("array"), "itemType" := Str("int"), "require" := Bool(false)]),
    ("int[]+?", map["type" := Str("array"), "itemType" := Str("int"), "require" := Bool(false), "min" := Num(1)]),
    ("integer[]", map["type" := Str("array"), "itemType" := Str("int"), "require" := Bool(true)]),
    ("integer[]+", map["type" := Str("array"), "itemType" := Str("int"), "require" := Bool(true), "min" := Num(1)]),
    ("integer[]?", map["type" := Str("array"), "itemType" := Str("int"), "require" := Bool(false)]),
    ("integer[]+?", map["type" := Str("array"), "itemType" := Str("int"), "require" := Bool(false), "min" := Num(1)]),
    ("object[]", map["type" := Str("array"), "itemType" := Str("object"), "require" := Bool(true)]),
    ("object[]+", map["type" := Str("array"), "itemType" := Str("object"), "require" := Bool(true), "min" := Num(1)]),
    ("object[]?", map["type" := Str("array"), "itemType" := Str("object"), "require" := Bool(false)]),
    ("object[]+?", map["type" := Str("array"), "itemType" := Str("object"), "require" := Bool(false), "min" := Num(1)]),
    ("obj[]", map["type" := Str("array"), "itemType" := Str("object"), "require" := Bool(true)]),
    ("obj[]+", map["type" := Str("array"), "itemType" := Str("object"), "require" := Bool(true), "min" := Num(1)]),
    ("obj[]?", map["type" := Str("array"), "itemType" := Str("object"), "require" := Bool(false)]),
    ("obj[]+?", map["type" := Str("array"), "itemType" := Str("object"), "require" := Bool(false), "min" := Num(1)])
  ]

  /** `i` is the position of `key` in `table`: the first entry with that token. */
  predicate FirstEntry(table: Table, key: string, i: int)
  {
    0 <= i < |table| && table[i].0 == key && forall j :: 0 <= j < i ==> table[j].0 != key
  }

  /** No entry of `table` has the token `key`. */
  predicate Absent(table: Table, key: string)
  {
    forall i :: 0 <= i < |table| ==> table[i].0 != key
  }

  /**
   * `table.hasOwnProperty(key)` as a search: the position of `key` in
   * `table`, or `|table|` when the table does not have it.
   */
  function IndexOf(table: Table, key: string): (i: nat)
    ensures i <= |table|
    ensures i < |table| ==> FirstEntry(table, key, i)
    ensures i == |table| <==> Absent(table, key)
  {
    IndexFrom(table, key, 0)
  }

  /** The search of `IndexOf`, from position `from` on. */
  function IndexFrom(table: Table, key: string, from: nat): (i: nat)
    requires from <= |table|
    ensures from <= i <= |table|
    ensures i < |table| ==> table[i].0 == key
    ensures forall j :: from <= j < i ==> table[j].0 != key
    decreases |table| - from
  {
    if from == |table| then from
    else if table[from].0 == key then from
    else IndexFrom(table, key, from + 1)
  }

  /** The record the `idCard` case of the switch lays over the attachment. */
  const IdCardRule: Rule := map["type" := Str("idCard")]

  /**
   * `makeValidRule(ruleKey, attachRule)`: the base table first, then the
   * array table, then the `idCard` case; the table entry is spread last, so
   * it wins on a shared key. Every other token yields the empty record and
   * the attachment is dropped.
   */
  function MakeValidRule(ruleKey: string, attach: Rule): (r: Rule)
    ensures forall i :: FirstEntry(BaseRuleMap, ruleKey, i) ==> Overrides(r, attach, BaseRuleMap[i].1)
    ensures Absent(BaseRuleMap, ruleKey) ==>
              forall i :: FirstEntry(ArrayRuleMap, ruleKey, i) ==> Overrides(r, attach, ArrayRuleMap[i].1)
    ensures Absent(BaseRuleMap, ruleKey) && Absent(ArrayRuleMap, ruleKey) && ruleKey == "idCard" ==>
              Overrides(r, attach, IdCardRule)
    ensures Absent(BaseRuleMap, ruleKey) && Absent(ArrayRuleMap, ruleKey) && ruleKey != "idCard" ==>
              r == map[]
  {
    var b := IndexOf(BaseRuleMap, ruleKey);
    if b < |BaseRuleMap| then
      Spread(attach, BaseRuleMap[b].1)
    else
      var a := IndexOf(ArrayRuleMap, ruleKey);
      if a < |ArrayRuleMap| then
        Spread(attach, ArrayRuleMap[a].1)
      else if ruleKey == "idCard" then
        Spread(attach, IdCardRule)
      else
        map[]
  }

  /** `enumRule(values, attachRule)`: the attachment with `type` and `values` installed. */
  function EnumRule(values: Value, attach: Rule): (r: Rule)
    ensures r.Keys == attach.Keys + {"type", "values"}
    ensures r["type"] == Str("enum") && r["values"] == values
    ensures forall k :: k in attach && k != "type" && k != "values" ==> r[k] == attach[k]
  {
    Spread(attach, map["type" := Str("enum"), "values" := values])
  }

  /** `arrayRule(itemType, rule, attachRule)`: the attachment with `type`, `itemType` and `rule` installed. */
  function ArrayRule(itemType: Value, rule: Value, attach: Rule): (r: Rule)
    ensures r.Keys == attach.Keys + {"type", "itemType", "rule"}
    ensures r["type"] == Str("array") && r["itemType"] == itemType && r["rule"] == rule
    ensures forall k :: k in attach && k != "type" && k != "itemType" && k != "rule" ==> r[k] == attach[k]
  {
    Spread(attach, map["type" := Str("array"), "itemType" := itemType, "rule" := rule])
  }

  /** `objectRule(rule, attachRule)`: the attachment with `type` and `rule` installed. */
  function ObjectRule(rule: Value, attach: Rule): (r: Rule)
    ensures r.Keys == attach.Keys + {"type", "rule"}
    ensures r["type"] == Str("object") && r["rule"] == rule
    ensures forall k :: k in attach && k != "type" && k != "rule" ==> r[k] == attach[k]
  {
    Spread(attach, map["type" := Str("object"), "rule" := rule])
  }

  // ---------------------------------------------------------------------
  // The naming scheme of the array tokens
  // ---------------------------------------------------------------------

  predicate HasPrefix(s: string, p: string)
  {
    p == [] || (s != [] && s[0] == p[0] && HasPrefix(s[1..], p[1..]))
  }

  /**
   * The element type an array token names. The six families (`string`,
   * `number`, `int`, `integer`, `object`, `obj`) start with four different
   * letters, and the two pairs that share one are synonyms.
   */
  function ItemTypeOf(token: string): Option<string>
  {
    if token == [] then None
    else if token[0] == 's' then Some("string")
    else if token[0] == 'n' then Some("number")
    else if token[0] == 'i' then Some("int")
    else if token[0] == 'o' then Some("object")
    else None
  }

  predicate EndsWithQuestionMark(token: string)
  {
    |token| > 0 && token[|token| - 1] == '?'
  }
}
