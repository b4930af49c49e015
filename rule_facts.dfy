/** Properties of the alias tables and of `makeValidRule`. */
module RuleFacts {
  import opened Wrappers
  import opened Rules

  /** Every array-table entry is an array constraint spelled with `require`, with keys drawn from four names. */
  lemma ArrayEntriesAreArrays()
    ensures forall i :: 0 <= i < |ArrayRuleMap| ==>
              "type" in ArrayRuleMap[i].1 && ArrayRuleMap[i].1["type"] == Str("array")
    ensures forall i :: 0 <= i < |ArrayRuleMap| ==>
              ArrayRuleMap[i].1.Keys <= {"type", "require", "min", "itemType"}
  {
  }

  /** A `+` in the token means `min: 1`; without it there is no `min`. */
  lemma ArrayPlusMeansMinOne()
    ensures forall i :: 0 <= i < |ArrayRuleMap| ==>
              ("min" in ArrayRuleMap[i].1 <==> '+' in ArrayRuleMap[i].0)
    ensures forall i :: 0 <= i < |ArrayRuleMap| && "min" in ArrayRuleMap[i].1 ==>
              ArrayRuleMap[i].1["min"] == Num(1)
  {
  }

  /** A final `?` means `require: false`; every other array token has `require: true`. */
  lemma ArrayQuestionMarkMeansOptional()
    ensures forall i :: 0 <= i < |ArrayRuleMap| ==>
              "require" in ArrayRuleMap[i].1 &&
              ArrayRuleMap[i].1["require"] == Bool(!EndsWithQuestionMark(ArrayRuleMap[i].0))
  {
  }

  /** The element type follows the token's family; the tokens `array...` and `[]...` leave the elements unconstrained. */
  lemma ArrayItemTypeFollowsFamily()
    ensures forall i :: 0 <= i < |ArrayRuleMap| ==>
              match ItemTypeOf(ArrayRuleMap[i].0)
              case Some(t) => "itemType" in ArrayRuleMap[i].1 && ArrayRuleMap[i].1["itemType"] == Str(t)
              case None => "itemType" !in ArrayRuleMap[i].1
  {
  }

  /** The prefixes `integer[` and `obj[` name the synonyms `int` and `object`. */
  lemma SynonymFamilies(token: string)
    ensures HasPrefix(token, "integer[") ==> ItemTypeOf(token) == Some("int")
    ensures HasPrefix(token, "int[") ==> ItemTypeOf(token) == Some("int")
    ensures HasPrefix(token, "obj[") ==> ItemTypeOf(token) == Some("object")
    ensures HasPrefix(token, "object[") ==> ItemTypeOf(token) == Some("object")
    ensures HasPrefix(token, "array") || HasPrefix(token, "[") ==> ItemTypeOf(token) == None
  {
  }

  /** Every base-table entry has a non-empty string `type`. */
  lemma BaseEntriesHaveType()
    ensures forall i :: 0 <= i < |BaseRuleMap| ==>
              "type" in BaseRuleMap[i].1 && BaseRuleMap[i].1["type"].Str? && BaseRuleMap[i].1["type"].s != ""
  {
  }

  /** What the lookup finds in the array table, the suffix rules above describe. */
  lemma ArrayLookupShape(token: string, entry: Rule)
    requires IndexOf(ArrayRuleMap, token) < |ArrayRuleMap|
    requires entry == ArrayRuleMap[IndexOf(ArrayRuleMap, token)].1
    ensures "type" in entry && entry["type"] == Str("array")
    ensures "require" in entry && entry["require"] == Bool(!EndsWithQuestionMark(token))
    ensures "min" in entry <==> '+' in token
    ensures HasPrefix(token, "integer[") ==> "itemType" in entry && entry["itemType"] == Str("int")
    ensures HasPrefix(token, "obj[") ==> "itemType" in entry && entry["itemType"] == Str("object")
  {
    var i := IndexOf(ArrayRuleMap, token);
    ArrayEntriesAreArrays();
    ArrayPlusMeansMinOne();
    ArrayQuestionMarkMeansOptional();
    ArrayItemTypeFollowsFamily();
    SynonymFamilies(token);
  }

  /** A token the lookup knows always yields a non-empty string `type` taken from the alias, never from the attachment. */
  lemma KnownTokenFixesType(ruleKey: string, attach: Rule)
    requires !Absent(BaseRuleMap, ruleKey) || !Absent(ArrayRuleMap, ruleKey) || ruleKey == "idCard"
    ensures var r := MakeValidRule(ruleKey, attach);
            "type" in r && r["type"].Str? && r["type"].s != ""
    ensures var r, bare := MakeValidRule(ruleKey, attach), MakeValidRule(ruleKey, map[]);
            "type" in r && "type" in bare && r["type"] == bare["type"]
  {
    var b := IndexOf(BaseRuleMap, ruleKey);
    var a := IndexOf(ArrayRuleMap, ruleKey);
    if b < |BaseRuleMap| {
      BaseEntriesHaveType();
    } else if a < |ArrayRuleMap| {
      ArrayEntriesAreArrays();
    }
  }

  /** A token of the base table resolves to the attachment overridden by its entry. */
  lemma ResolvesInBaseTable(ruleKey: string, i: int, attach: Rule)
    requires FirstEntry(BaseRuleMap, ruleKey, i)
    ensures MakeValidRule(ruleKey, attach) == attach + BaseRuleMap[i].1
  {
    var r := MakeValidRule(ruleKey, attach);
    assert Overrides(r, attach, BaseRuleMap[i].1);
  }

  /** No token is in both tables, so every array token reaches the array table. */
  lemma TablesDisjoint()
    ensures forall i :: 0 <= i < |ArrayRuleMap| ==> Absent(BaseRuleMap, ArrayRuleMap[i].0)
  {
  }

  /** A token found only in the array table resolves to the attachment overridden by its entry. */
  lemma ResolvesInArrayTable(ruleKey: string, i: int, attach: Rule)
    requires Absent(BaseRuleMap, ruleKey) && FirstEntry(ArrayRuleMap, ruleKey, i)
    ensures MakeValidRule(ruleKey, attach) == attach + ArrayRuleMap[i].1
  {
    var r := MakeValidRule(ruleKey, attach);
    assert Overrides(r, attach, ArrayRuleMap[i].1);
  }

  /** The base table's `string` alias wins on `type`, `required` and `allowEmpty` and keeps every other attached key (so `{ message: 'X', type: 'override' }` keeps its message but not its type). */
  lemma StringAliasPrecedence(attach: Rule)
    ensures MakeValidRule("string", attach)
            == attach + map["type" := Str("string"), "required" := Bool(true), "allowEmpty" := Bool(false)]
  {
    ResolvesInBaseTable("string", 9, attach);
  }

  /** `string[]+` expands to a required, non-empty array of strings. */
  lemma StringArrayPlusExample(attach: Rule)
    ensures MakeValidRule("string[]+", attach)
            == attach + map["type" := Str("array"), "itemType" := Str("string"), "require" := Bool(true), "min" := Num(1)]
  {
    ResolvesInArrayTable("string[]+", 5, attach);
  }

  /** `string[]?` expands to an optional array of strings with no minimum. */
  lemma StringArrayOptionalExample(attach: Rule)
    ensures MakeValidRule("string[]?", attach)
            == attach + map["type" := Str("array"), "itemType" := Str("string"), "require" := Bool(false)]
  {
    ResolvesInArrayTable("string[]?", 6, attach);
  }

  /** An unknown token drops the attachment: `makeValidRule('not-a-real-token', { foo: 1 })` is `{}`. */
  lemma UnknownTokenExample(attach: Rule)
    ensures MakeValidRule("not-a-real-token", attach) == map[]
  {
    assert Absent(BaseRuleMap, "not-a-real-token");
    assert Absent(ArrayRuleMap, "not-a-real-token");
  }

  /** Neither table holds `idCard`, so the lookup reaches the switch for it. */
  lemma IdCardInNoTable()
    ensures Absent(BaseRuleMap, "idCard") && Absent(ArrayRuleMap, "idCard")
  {
  }

  /** A token in neither table that the `switch` knows resolves to the attachment overridden by `{ type: 'idCard' }`. */
  lemma ResolvesInSwitch(ruleKey: string, attach: Rule)
    requires Absent(BaseRuleMap, ruleKey) && Absent(ArrayRuleMap, ruleKey) && ruleKey == "idCard"
    ensures MakeValidRule(ruleKey, attach) == attach + IdCardRule
  {
    assert Overrides(MakeValidRule(ruleKey, attach), attach, IdCardRule);
  }

  /** `idCard` gets only its `type` laid over the attachment. */
  lemma IdCardToken(attach: Rule)
    ensures MakeValidRule("idCard", attach) == attach + map["type" := Str("idCard")]
  {
    IdCardInNoTable();
    ResolvesInSwitch("idCard", attach);
  }

  /** The sibling token `[]+?` is not in the table (only `[]]+?` is), so it resolves to `{}`. */
  lemma MisspelledOptionalArrayToken(attach: Rule)
    ensures MakeValidRule("[]+?", attach) == map[]
  {
    assert Absent(BaseRuleMap, "[]+?");
    assert Absent(ArrayRuleMap, "[]+?");
  }
}
