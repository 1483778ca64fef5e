/** Filters on the same field are alternatives; filters on different fields must all hold. */
module FilterGroups {
  import opened Common
  import opened Text
  import opened DataModel
  import opened FilterSyntax
  import opened FilterCompiler

  /** The filters on one field path, in the order they came. */
  datatype Group = Group(key: string, filters: seq<Filter>)

  function Items(parts: seq<string>): seq<string> {
    if parts == [] then []
    else (if Trim(parts[0]) == "" then [] else [Trim(parts[0])]) + Items(parts[1..])
  }

  function Parsed(items: seq<string>): seq<Filter> {
    seq(|items|, i requires 0 <= i < |items| => ParseFilterExpression(items[i]))
  }

  /** Adding a filter to its group; a new group goes last. */
  function Join(groups: seq<Group>, filter: Filter): seq<Group> {
    if groups == [] then [Group(filter.field, [filter])]
    else if groups[0].key == filter.field then [Group(filter.field, groups[0].filters + [filter])] + groups[1..]
    else [groups[0]] + Join(groups[1..], filter)
  }

  function JoinAll(groups: seq<Group>, filters: seq<Filter>): seq<Group>
    decreases |filters|
  {
    if filters == [] then groups else JoinAll(Join(groups, filters[0]), filters[1..])
  }

  function BuildEach(w: World, schema: Schema, model: string, path: seq<string>, filters: seq<Filter>): Option<seq<Condition>>
    requires path != []
  {
    if filters == [] then Some([])
    else
      var first := BuildCondition(w, schema, model, path, filters[0]);
      var rest := BuildEach(w, schema, model, path, filters[1..]);
      if first.None? || rest.None? then None else Some([first.value] + rest.value)
  }

  function GroupCondition(w: World, schema: Schema, model: string, group: Group): Option<Condition> {
    var path := Split(group.key, '.');
    if |group.filters| == 1 then BuildCondition(w, schema, model, path, group.filters[0])
    else
      var each := BuildEach(w, schema, model, path, group.filters);
      if each.None? then None else Some(Any(each.value))
  }

  /** The conditions of the groups that build; the others are dropped. */
  function Conditions(w: World, schema: Schema, model: string, groups: seq<Group>): seq<Condition> {
    if groups == [] then []
    else
      var first := GroupCondition(w, schema, model, groups[0]);
      (if first.None? then [] else [first.value]) + Conditions(w, schema, model, groups[1..])
  }

  predicate LooksLikeJson(text: string) {
    var t := Trim(text);
    t != "" && (t[0] == '[' || t[0] == '{')
  }

  function PlainText(w: World, text: string): string {
    if LooksLikeJson(text) then w.unwrapped(text) else text
  }

  function Filters(text: string): seq<Filter> {
    Parsed(Items(Split(text, ',')))
  }

  function Compile(w: World, schema: Schema, model: string, filters: seq<Filter>): seq<Condition> {
    Conditions(w, schema, model, JoinAll([], filters))
  }

  /** The conditions of a filter parameter; none when the model is unknown. */
  function Built(w: World, schema: Schema, model: string, filterParam: string): Option<seq<Condition>> {
    if filterParam == "" then Some([])
    else if model !in schema.models then None
    else if PlainText(w, filterParam) == "" then Some([])
    else Some(Compile(w, schema, model, Filters(PlainText(w, filterParam))))
  }

  lemma JoinStep(groups: seq<Group>, items: seq<string>, i: nat)
    requires i < |items|
    ensures JoinAll(groups, Parsed(items)[i..])
         == JoinAll(Join(groups, ParseFilterExpression(items[i])), Parsed(items)[i + 1..])
  {
    hide ParseFilterExpression, Join;
    assert Parsed(items)[i..][0] == ParseFilterExpression(items[i]);
    assert Parsed(items)[i..][1..] == Parsed(items)[i + 1..];
  }

  lemma ConditionsStep(w: World, schema: Schema, model: string, groups: seq<Group>, i: nat)
    requires i < |groups|
    ensures var condition := GroupCondition(w, schema, model, groups[i]);
            Conditions(w, schema, model, groups[i..])
            == (if condition.None? then [] else [condition.value]) + Conditions(w, schema, model, groups[i + 1..])
  {
    hide GroupCondition;
    assert groups[i..][0] == groups[i] && groups[i..][1..] == groups[i + 1..];
  }

  /** An unknown model is an error; every other failure only drops what it concerns. */
  method BuildFilterConditions(w: World, schema: Schema, model: string, filterParam: string)
    returns (conditions: Option<seq<Condition>>)
    ensures conditions == Built(w, schema, model, filterParam)
  {
    hide PlainText, Conditions, JoinAll, Join, GroupCondition, ParseFilterExpression, Split, Items;
    if filterParam == "" {
      return Some([]);
    }
    if model !in schema.models {
      return None;
    }
    var text := PlainText(w, filterParam);
    if text == "" {
      return Some([]);
    }
    var items := Items(Split(text, ','));
    var groups, i := [], 0;
    assert Parsed(items)[0..] == Filters(text);
    while i < |items|
      invariant 0 <= i <= |items|
      invariant JoinAll(groups, Parsed(items)[i..]) == JoinAll([], Filters(text))
    {
      JoinStep(groups, items, i);
      groups := Join(groups, ParseFilterExpression(items[i]));
      i := i + 1;
    }
    assert Parsed(items)[i..] == [];
    JoinedAll(groups);
    assert groups == JoinAll([], Filters(text));
    var built, j := [], 0;
    assert groups[0..] == groups;
    while j < |groups|
      invariant 0 <= j <= |groups|
      invariant built + Conditions(w, schema, model, groups[j..]) == Conditions(w, schema, model, groups)
    {
      ConditionsStep(w, schema, model, groups, j);
      var condition := GroupCondition(w, schema, model, groups[j]);
      if condition.Some? {
        built := built + [condition.value];
      }
      j := j + 1;
    }
    NoConditions(w, schema, model);
    assert groups[j..] == [];
    assert built == Conditions(w, schema, model, groups);
    assert built == Compile(w, schema, model, Filters(text));
    return Some(built);
  }

  lemma JoinedAll(groups: seq<Group>)
    ensures JoinAll(groups, []) == groups
  {
  }

  lemma NoConditions(w: World, schema: Schema, model: string)
    ensures Conditions(w, schema, model, []) == []
  {
  }

  // ---- grouping loses nothing ----

  /** The filters on one field, in order. */
  function Having(filters: seq<Filter>, key: string): (having: seq<Filter>)
    ensures forall f :: f in having <==> f in filters && f.field == key
    decreases |filters|
  {
    if filters == [] then []
    else (if filters[0].field == key then [filters[0]] else []) + Having(filters[1..], key)
  }

  function GroupOf(groups: seq<Group>, key: string): seq<Filter> {
    if groups == [] then []
    else if groups[0].key == key then groups[0].filters
    else GroupOf(groups[1..], key)
  }

  lemma {:induction false} JoinOne(groups: seq<Group>, filter: Filter, key: string)
    ensures GroupOf(Join(groups, filter), key) == GroupOf(groups, key) + if filter.field == key then [filter] else []
  {
    if groups != [] && groups[0].key != filter.field {
      JoinOne(groups[1..], filter, key);
    }
  }

  /** Every field's group is exactly the filters on that field, in order. */
  lemma {:induction false} JoinedExactly(groups: seq<Group>, filters: seq<Filter>, key: string)
    ensures GroupOf(JoinAll(groups, filters), key) == GroupOf(groups, key) + Having(filters, key)
    decreases |filters|
  {
    if filters != [] {
      JoinOne(groups, filters[0], key);
      JoinedExactly(Join(groups, filters[0]), filters[1..], key);
    }
  }

  predicate Proper(groups: seq<Group>) {
    && (forall i, j :: 0 <= i < j < |groups| ==> groups[i].key != groups[j].key)
    && (forall i :: 0 <= i < |groups| ==> groups[i].filters != [])
  }

  lemma {:induction false} JoinKeepsProper(groups: seq<Group>, filter: Filter)
    requires Proper(groups)
    ensures Proper(Join(groups, filter))
    ensures forall i :: 0 <= i < |Join(groups, filter)| ==>
              Join(groups, filter)[i].key == filter.field || exists j :: 0 <= j < |groups| && groups[j].key == Join(groups, filter)[i].key
  {
    if groups != [] {
      var tail, joined := groups[1..], Join(groups, filter);
      if groups[0].key == filter.field {
        assert joined[1..] == tail;
        forall i | 0 <= i < |joined| ensures joined[i].key == groups[i].key && joined[i].filters != [] {
          assert i > 0 ==> joined[i] == tail[i - 1] == groups[i];
        }
      } else {
        JoinKeepsProper(tail, filter);
        assert joined[1..] == Join(tail, filter);
        forall i | 1 <= i < |joined|
          ensures joined[i].key != joined[0].key
          ensures joined[i].key == filter.field || exists j :: 0 <= j < |groups| && groups[j].key == joined[i].key
        {
          assert joined[i] == Join(tail, filter)[i - 1];
          if joined[i].key != filter.field {
            var j :| 0 <= j < |tail| && tail[j].key == joined[i].key;
            assert groups[j + 1] == tail[j];
          }
        }
      }
    }
  }

  lemma {:induction false} JoinAllProper(groups: seq<Group>, filters: seq<Filter>)
    requires Proper(groups)
    ensures Proper(JoinAll(groups, filters))
    decreases |filters|
  {
    if filters != [] {
      JoinKeepsProper(groups, filters[0]);
      JoinAllProper(Join(groups, filters[0]), filters[1..]);
    }
  }

  lemma {:induction false} GroupAt(groups: seq<Group>, i: nat)
    requires Proper(groups) && i < |groups|
    ensures GroupOf(groups, groups[i].key) == groups[i].filters
  {
    if i > 0 {
      assert groups[1..][i - 1] == groups[i];
      GroupAt(groups[1..], i - 1);
    }
  }

  lemma {:induction false} GroupPresent(groups: seq<Group>, key: string) returns (i: nat)
    requires GroupOf(groups, key) != []
    ensures i < |groups| && groups[i].key == key
  {
    if groups[0].key == key {
      i := 0;
    } else {
      var j := GroupPresent(groups[1..], key);
      i := j + 1;
    }
  }

  // ---- what the compiled conditions mean ----

  predicate AllBuild(w: World, schema: Schema, model: string, filters: seq<Filter>) {
    forall f :: f in filters ==> Builds(w, schema, model, f)
  }

  /** One of the alternatives holds. */
  ghost predicate OneSays(w: World, schema: Schema, model: string, filters: seq<Filter>, record: Record)
    requires AllBuild(w, schema, model, filters)
  {
    exists f :: f in filters && Says(w, schema, model, f, record)
  }

  ghost predicate AllShaped(schema: Schema, model: string, filters: seq<Filter>, record: Record) {
    forall f :: f in filters ==> Shaped(schema, model, record, Split(f.field, '.'))
  }

  lemma {:induction false} EachMeaning(w: World, schema: Schema, model: string, key: string, filters: seq<Filter>, record: Record)
    requires forall f :: f in filters ==> f.field == key
    requires AllShaped(schema, model, filters, record)
    ensures var each := BuildEach(w, schema, model, Split(key, '.'), filters);
            && each.Some? == AllBuild(w, schema, model, filters)
            && (each.Some? ==>
                  (Eval(w, schema, model, Any(each.value), record) <==> OneSays(w, schema, model, filters, record)))
    decreases |filters|
  {
    hide Shaped, EndMeta, Ends, Meets, Readable, BuildCondition, Split;
    if filters != [] {
      var path, f, rest := Split(key, '.'), filters[0], filters[1..];
      EachMeaning(w, schema, model, key, rest, record);
      CompilesExactly(w, schema, model, path, f);
      assert AllBuild(w, schema, model, filters) <==> Builds(w, schema, model, f) && AllBuild(w, schema, model, rest);
      if AllBuild(w, schema, model, filters) {
        ConditionMeaning(w, schema, model, path, f, record);
        var first := BuildCondition(w, schema, model, path, f).value;
        var others := BuildEach(w, schema, model, path, rest).value;
        AnyOfMore(w, schema, model, first, others, record);
        assert OneSays(w, schema, model, filters, record)
            <==> Says(w, schema, model, f, record) || OneSays(w, schema, model, rest, record);
      }
    }
  }

  lemma AnyOfMore(w: World, schema: Schema, model: string, first: Condition, others: seq<Condition>, record: Record)
    ensures Eval(w, schema, model, Any([first] + others), record)
       <==> Eval(w, schema, model, first, record) || Eval(w, schema, model, Any(others), record)
  {
    var all := [first] + others;
    assert all[0] == first && forall i :: 0 <= i < |others| ==> all[i + 1] == others[i];
  }

  lemma GroupMeaning(w: World, schema: Schema, model: string, group: Group, record: Record)
    requires group.filters != [] && forall f :: f in group.filters ==> f.field == group.key
    requires AllShaped(schema, model, group.filters, record)
    ensures var condition := GroupCondition(w, schema, model, group);
            && condition.Some? == AllBuild(w, schema, model, group.filters)
            && (condition.Some? ==>
                  (Eval(w, schema, model, condition.value, record) <==> OneSays(w, schema, model, group.filters, record)))
  {
    hide Shaped, EndMeta, Ends, Meets, Readable, BuildCondition, Split;
    EachMeaning(w, schema, model, group.key, group.filters, record);
    if |group.filters| == 1 {
      var path, f := Split(group.key, '.'), group.filters[0];
      assert group.filters == [f] && group.filters[1..] == [];
      if AllBuild(w, schema, model, group.filters) {
        AnyOfMore(w, schema, model, BuildCondition(w, schema, model, path, f).value, [], record);
      }
    }
  }

  /** Every condition holds of the record. */
  ghost predicate AllHold(w: World, schema: Schema, model: string, conditions: seq<Condition>, record: Record) {
    forall c :: c in conditions ==> Eval(w, schema, model, c, record)
  }

  /** The filters on one field, if they all build, are met by one of them. */
  ghost predicate FieldHolds(w: World, schema: Schema, model: string, filters: seq<Filter>, record: Record) {
    AllBuild(w, schema, model, filters) ==> OneSays(w, schema, model, filters, record)
  }

  lemma {:induction false} GroupsMeaning(w: World, schema: Schema, model: string, groups: seq<Group>, record: Record)
    requires forall g :: g in groups ==>
               g.filters != [] && (forall f :: f in g.filters ==> f.field == g.key) && AllShaped(schema, model, g.filters, record)
    ensures AllHold(w, schema, model, Conditions(w, schema, model, groups), record)
       <==> forall g :: g in groups ==> FieldHolds(w, schema, model, g.filters, record)
  {
    hide GroupCondition, AllShaped, Eval, AllBuild, OneSays;
    if groups != [] {
      var g, rest := groups[0], groups[1..];
      GroupMeaning(w, schema, model, g, record);
      GroupsMeaning(w, schema, model, rest, record);
      assert groups == [g] + rest;
    }
  }

  /**
   The conditions select a record exactly when, for every field filtered on, some filter on that
   field holds at the end of its path. A field one of whose filters does not build is left out.
   */
  lemma ConditionsMeaning(w: World, schema: Schema, model: string, filters: seq<Filter>, record: Record)
    requires AllShaped(schema, model, filters, record)
    ensures AllHold(w, schema, model, Compile(w, schema, model, filters), record)
       <==> forall f :: f in filters ==> FieldHolds(w, schema, model, Having(filters, f.field), record)
  {
    hide Shaped, Conditions, Join, Having, Split, FieldHolds;
    var groups := JoinAll([], filters);
    JoinAllProper([], filters);
    forall i | 0 <= i < |groups|
      ensures groups[i].filters == Having(filters, groups[i].key)
    {
      GroupAt(groups, i);
      JoinedExactly([], filters, groups[i].key);
    }
    forall f | f in filters
      ensures exists g :: g in groups && g.filters == Having(filters, f.field)
    {
      assert f in Having(filters, f.field);
      JoinedExactly([], filters, f.field);
      var i := GroupPresent(groups, f.field);
      assert groups[i] in groups;
    }
    forall g | g in groups ensures g.filters[0] in filters && g.filters[0].field == g.key {
      assert g.filters[0] in Having(filters, g.key);
    }
    GroupsMeaning(w, schema, model, groups, record);
  }

  // ---- from text to conditions ----

  function Written(filters: seq<Filter>): string
    requires filters != []
  {
    if |filters| == 1 then Print(filters[0]) else Print(filters[0]) + "," + Written(filters[1..])
  }

  lemma PrintedCleanly(f: Filter)
    requires Writable(f)
    ensures ',' !in Print(f) && Print(f) != "" && Trim(Print(f)) == Print(f)
  {
    hide RangeParts, IsNumeral, IsSymbol, IsBlank;
    SymbolNotBlank(f);
    var s := Print(f);
    assert s[0] == f.field[0];
    match f
    case Compare(field, operator, text) =>
      PrintShows(f);
      assert text != "" ==> s[|s| - 1] == text[|text| - 1];
      assert s == field + Symbol(operator) + text;
    case Range(field, low, high) =>
      NumeralNotBlank(low);
      NumeralNotBlank(high);
      assert s[|s| - 1] == high[|high| - 1];
      assert s == field + ":" + low + "-" + high;
  }

  lemma SymbolNotBlank(f: Filter)
    ensures f.Compare? ==> var t := Symbol(f.operator); ',' !in t && !IsBlank(t[|t| - 1])
  {
  }

  lemma NumeralNotBlank(s: string)
    requires IsNumeral(s)
    ensures s != "" && ',' !in s && !IsBlank(s[|s| - 1])
  {
    NumeralChars(s);
  }

  /** A written list of filters reads back as the same filters. */
  lemma {:induction false} WrittenReadsBack(filters: seq<Filter>)
    requires filters != [] && forall f :: f in filters ==> Writable(f)
    ensures Filters(Written(filters)) == filters
    decreases |filters|
  {
    hide Writable, Print, Trim, ParseFilterExpression;
    var f := filters[0];
    PrintedCleanly(f);
    ReadsBack(f);
    if |filters| == 1 {
      SplitLast(Print(f));
      assert Items([Print(f)]) == [Print(f)];
      assert filters == [f];
    } else {
      var rest := filters[1..];
      WrittenReadsBack(rest);
      assert Written(filters) == Print(f) + ("," + Written(rest));
      SplitFirst(Print(f), Written(rest));
      var parts := Split(Written(rest), ',');
      assert ([Print(f)] + parts)[1..] == parts;
      assert Items([Print(f)] + parts) == [Print(f)] + Items(parts);
      assert Parsed([Print(f)] + Items(parts)) == [f] + Parsed(Items(parts));
    }
  }

  lemma SplitLast(s: string)
    requires ',' !in s
    ensures Split(s, ',') == [s]
  {
  }

  lemma SplitFirst(s: string, rest: string)
    requires ',' !in s
    ensures Split(s + ("," + rest), ',') == [s] + Split(rest, ',')
  {
    hide Trim;
    var p := s + ("," + rest);
    assert forall k :: 0 <= k < |s| ==> p[k] == s[k];
    FirstIndex(p, ',', |s|);
    assert p[..|s|] == s && p[|s| + 1..] == rest;
  }

  /** The first character that is not white space stays first after trimming. */
  lemma TrimmedFirst(blanks: string, text: string)
    requires text != "" && !IsBlank(text[0]) && forall i :: 0 <= i < |blanks| ==> IsBlank(blanks[i])
    ensures Trim(blanks + text) != "" && Trim(blanks + text)[0] == text[0]
  {
    var s := blanks + text;
    assert s[|blanks|] == text[0];
    var k := StartTrimmed(s);
    assert TrimStart(s)[0] == s[k];
    assert forall i :: 0 <= i < |blanks| ==> s[i] == blanks[i];
    EndTrimmed(s[k..]);
    assert s[k..][0] == text[0];
    EndNonempty(s[k..]);
  }

  lemma EndNonempty(s: string)
    requires s != "" && !IsBlank(s[0])
    ensures TrimEnd(s) != "" && TrimEnd(s)[0] == s[0]
  {
    EndTrimmed(s);
  }

  lemma {:induction false} WrittenFirst(filters: seq<Filter>)
    requires filters != [] && Writable(filters[0])
    ensures var s := Written(filters); s != "" && s[0] == filters[0].field[0] && !IsBlank(s[0])
  {
    hide RangeParts, IsNumeral, HasSymbol;
    var f, s := filters[0], Print(filters[0]);
    assert s[0] == f.field[0];
  }

  /** A parameter that starts with a bracket or a brace, after any white space, is read as JSON. */
  lemma JsonIsUnwrapped(w: World, schema: Schema, model: string, blanks: string, text: string)
    requires model in schema.models && forall i :: 0 <= i < |blanks| ==> IsBlank(blanks[i])
    requires text != "" && text[0] in "[{"
    ensures Built(w, schema, model, blanks + text)
         == Some(if w.unwrapped(blanks + text) == "" then [] else Compile(w, schema, model, Filters(w.unwrapped(blanks + text))))
  {
    hide Compile, Filters, Trim;
    TrimmedFirst(blanks, text);
  }

  /**
   End to end: the conditions built from a written list of filters select a record exactly when,
   for every field filtered on, some filter on that field holds at the end of its path.
   */
  lemma WrittenFiltersSelect(w: World, schema: Schema, model: string, filters: seq<Filter>, record: Record)
    requires filters != [] && forall f :: f in filters ==> Writable(f)
    requires filters[0].field != "" && filters[0].field[0] !in "[{"
    requires model in schema.models && AllShaped(schema, model, filters, record)
    ensures Built(w, schema, model, Written(filters)).Some?
    ensures AllHold(w, schema, model, Built(w, schema, model, Written(filters)).value, record)
       <==> forall f :: f in filters ==> FieldHolds(w, schema, model, Having(filters, f.field), record)
  {
    hide Writable, Print, Trim, AllShaped, AllHold, FieldHolds, Compile, Filters;
    WrittenFirst(filters);
    TrimmedFirst("", Written(filters));
    assert "" + Written(filters) == Written(filters);
    WrittenReadsBack(filters);
    ConditionsMeaning(w, schema, model, filters, record);
  }
}
