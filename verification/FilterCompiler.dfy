/**
 Compiling filters to query conditions. Conditions are given a meaning over nested records, and
 the compiled conditions are compared with what the filters say about the values at the end of
 their field paths.
 */
module FilterCompiler {
  import opened Common
  import opened Text
  import opened DataModel
  import opened FilterSyntax

  datatype Value = Word(text: string) | Number(number: real) | Flag(flag: bool) | Instant(time: int) | Document(json: string)

  /**
   Library code and the database's own comparisons, left open. `unwrapped` turns a filter given
   in JSON into the plain notation, or into the empty string when it holds no usable filter.
   */
  datatype World = World(
    integer: string -> Option<Value>,
    decimal: string -> Option<Value>,
    date: string -> Option<Value>,
    json: string -> Value,
    unwrapped: string -> string,
    fold: string -> string,
    atMost: (Value, Value) -> bool)

  datatype Record = Record(cells: map<string, Cell>)

  /** What a record holds under a field: a nullable value, a list, or related records. */
  datatype Cell = Single(value: Option<Value>) | Many(values: seq<Value>) | Linked(records: seq<Record>)

  // ---- conditions and their meaning ----

  datatype Test =
    | Equal(value: Option<Value>)
    | Unequal(other: Value)
    | Ordered(operator: Operator, bound: Value)
    | Like(operator: Operator, pattern: Value)
    | Has(member: Value)

  /** `Via` steps to related records; `some` marks a to-many step, `composite` one through `is`. */
  datatype Condition =
    | On(field: string, test: Test)
    | Not(condition: Condition)
    | Both(left: Condition, right: Condition)
    | Any(conditions: seq<Condition>)
    | Via(field: string, some: bool, composite: bool, condition: Condition)

  function Lower(s: string): string {
    seq(|s|, i requires 0 <= i < |s| => if 'A' <= s[i] <= 'Z' then s[i] - 'A' + 'a' else s[i])
  }

  predicate IsOrdered(fieldType: string) {
    fieldType == "Int" || fieldType == "BigInt" || fieldType == "Float" || fieldType == "Decimal" || fieldType == "DateTime"
  }

  predicate Compares(w: World, operator: Operator, v: Value, bound: Value) {
    match operator
    case AtLeast => w.atMost(bound, v)
    case AtMost => w.atMost(v, bound)
    case Above => !w.atMost(v, bound)
    case Below => !w.atMost(bound, v)
    case _ => false
  }

  predicate Resembles(w: World, operator: Operator, v: Value, pattern: Value) {
    && v.Word? && pattern.Word?
    && var s, t := w.fold(v.text), w.fold(pattern.text);
       match operator
       case StartsWith => t <= s
       case EndsWith => |t| <= |s| && s[|s| - |t|..] == t
       case Contains => exists k :: 0 <= k <= |s| && t <= s[k..]
       case _ => false
  }

  /** A test the field's type does not offer is refused by the database, and so selects nothing. */
  predicate Passes(w: World, meta: Field, test: Test, cell: Cell) {
    match test
    case Equal(value) => cell == Single(value)
    case Unequal(other) => cell.Single? && cell.value.Some? && cell.value.value != other
    case Ordered(operator, bound) => cell.Single? && cell.value.Some? && Compares(w, operator, cell.value.value, bound)
    case Like(operator, pattern) =>
      meta.fieldType == "String" && cell.Single? && cell.value.Some? && Resembles(w, operator, cell.value.value, pattern)
    case Has(member) => meta.isList && cell.Many? && member in cell.values
  }

  ghost predicate Eval(w: World, schema: Schema, model: string, condition: Condition, record: Record)
    decreases condition
  {
    match condition
    case On(field, test) =>
      var meta := GetFieldMeta(schema, model, field);
      && meta.Some? && (meta.value.kind.Scalar? || meta.value.kind.Enumeration?)
      && field in record.cells && Passes(w, meta.value, test, record.cells[field])
    case Not(inner) => !Eval(w, schema, model, inner, record)
    case Both(left, right) => Eval(w, schema, model, left, record) && Eval(w, schema, model, right, record)
    case Any(conditions) => exists i :: 0 <= i < |conditions| && Eval(w, schema, model, conditions[i], record)
    case Via(field, some, composite, inner) =>
      var meta := GetFieldMeta(schema, model, field);
      && meta.Some? && meta.value.kind.Object? && some == meta.value.isList && composite == !meta.value.related
      && field in record.cells && record.cells[field].Linked?
      && exists r :: r in record.cells[field].records && Eval(w, schema, meta.value.fieldType, inner, r)
  }

  // ---- the compiler ----

  predicate IsNullText(text: string) {
    Lower(text) == "null" || Lower(text) == "undefined"
  }

  /** Reading text as a value of the field's type; none when it is not one. Null texts are met earlier. */
  function ParseValue(w: World, meta: Field, text: string): Option<Value> {
    if meta.fieldType == "Int" || meta.fieldType == "BigInt" then w.integer(text)
    else if meta.fieldType == "Float" || meta.fieldType == "Decimal" then w.decimal(text)
    else if meta.fieldType == "Boolean" then Some(Flag(Lower(text) == "true" || Lower(text) == "yes" || text == "1"))
    else if meta.fieldType == "DateTime" then w.date(text)
    else if meta.fieldType == "Json" then Some(w.json(text))
    else Some(Word(text))
  }

  function BuildTest(meta: Field, field: string, operator: Operator, value: Value): Condition {
    if meta.isList then
      if operator == Differs then Not(On(field, Has(value))) else On(field, Has(value))
    else if meta.fieldType == "String" then
      match operator
      case StartsWith | EndsWith | Contains => On(field, Like(operator, value))
      case Differs => On(field, Unequal(value))
      case _ => On(field, Equal(Some(value)))
    else if IsOrdered(meta.fieldType) then
      match operator
      case Above | AtLeast | Below | AtMost => On(field, Ordered(operator, value))
      case Differs => On(field, Unequal(value))
      case _ => On(field, Equal(Some(value)))
    else if operator == Differs then On(field, Unequal(value))
    else On(field, Equal(Some(value)))
  }

  function BuildTerminal(w: World, meta: Field, field: string, filter: Filter): Option<Condition> {
    if !meta.kind.Scalar? && !meta.kind.Enumeration? then None
    else
      match filter
      case Compare(_, operator, text) =>
        if IsNullText(text) then Some(On(field, Equal(None)))
        else
          var value := ParseValue(w, meta, text);
          if value.None? then None else Some(BuildTest(meta, field, operator, value.value))
      case Range(_, low, high) =>
        var a, b := ParseValue(w, meta, low), ParseValue(w, meta, high);
        if a.None? || b.None? then None
        else Some(Both(On(field, Ordered(AtLeast, a.value)), On(field, Ordered(AtMost, b.value))))
  }

  /** None is the thrown error. */
  function BuildCondition(w: World, schema: Schema, model: string, path: seq<string>, filter: Filter): Option<Condition>
    requires path != []
    decreases |path|
  {
    var meta := GetFieldMeta(schema, model, path[0]);
    if meta.None? then None
    else if |path| == 1 then BuildTerminal(w, meta.value, path[0], filter)
    else if !meta.value.kind.Object? then None
    else
      var nested := BuildCondition(w, schema, meta.value.fieldType, path[1..], filter);
      if nested.None? then None
      else Some(Via(path[0], meta.value.isList, !meta.value.related, nested.value))
  }

  // ---- what a filter says ----

  /** The field a path ends at. */
  function EndMeta(schema: Schema, model: string, path: seq<string>): (end: Option<Field>)
    requires path != []
    ensures end.Some? ==> end.value.kind.Scalar? || end.value.kind.Enumeration?
    decreases |path|
  {
    var meta := GetFieldMeta(schema, model, path[0]);
    if meta.None? then None
    else if |path| == 1 then if meta.value.kind.Scalar? || meta.value.kind.Enumeration? then meta else None
    else if meta.value.kind.Object? then EndMeta(schema, meta.value.fieldType, path[1..])
    else None
  }

  /** The cells a path leads to, through every related record. */
  function Ends(record: Record, path: seq<string>): seq<Cell>
    requires path != []
    decreases |path|, 0
  {
    if path[0] !in record.cells then []
    else if |path| == 1 then [record.cells[path[0]]]
    else if record.cells[path[0]].Linked? then EndsOfAll(record.cells[path[0]].records, path[1..])
    else []
  }

  function EndsOfAll(records: seq<Record>, path: seq<string>): seq<Cell>
    requires path != []
    decreases |path|, 1 + |records|
  {
    if records == [] then [] else Ends(records[0], path) + EndsOfAll(records[1..], path)
  }

  /** The operators a type offers; the others mean equality. */
  function Effective(fieldType: string, operator: Operator): Operator {
    if operator == Differs then Differs
    else if operator in {StartsWith, EndsWith, Contains} && fieldType == "String" then operator
    else if operator in {Above, AtLeast, Below, AtMost} && IsOrdered(fieldType) then operator
    else Equals
  }

  predicate Relates(w: World, operator: Operator, v: Value, operand: Value) {
    match operator
    case Equals => v == operand
    case Differs => v != operand
    case Above | AtLeast | Below | AtMost => Compares(w, operator, v, operand)
    case StartsWith | EndsWith | Contains => Resembles(w, operator, v, operand)
  }

  predicate Readable(w: World, meta: Field, filter: Filter) {
    match filter
    case Compare(_, _, text) => IsNullText(text) || ParseValue(w, meta, text).Some?
    case Range(_, low, high) => ParseValue(w, meta, low).Some? && ParseValue(w, meta, high).Some?
  }

  /** A filter on the value in a cell. On a list it asks for membership, or its absence. */
  predicate Meets(w: World, meta: Field, filter: Filter, cell: Cell)
    requires Readable(w, meta, filter)
  {
    match filter
    case Compare(_, operator, text) =>
      if IsNullText(text) then cell == Single(None)
      else
        var operand := ParseValue(w, meta, text).value;
        (match cell
         case Single(value) => value.Some? && Relates(w, Effective(meta.fieldType, operator), value.value, operand)
         case Many(values) => (operand in values) == (operator != Differs)
         case Linked(_) => false)
    case Range(_, low, high) =>
      && cell.Single? && cell.value.Some?
      && w.atMost(ParseValue(w, meta, low).value, cell.value.value)
      && w.atMost(cell.value.value, ParseValue(w, meta, high).value)
  }

  predicate Builds(w: World, schema: Schema, model: string, filter: Filter) {
    var end := EndMeta(schema, model, Split(filter.field, '.'));
    end.Some? && Readable(w, end.value, filter)
  }

  /** Some value at the end of the filter's path meets it. */
  ghost predicate Says(w: World, schema: Schema, model: string, filter: Filter, record: Record)
    requires Builds(w, schema, model, filter)
  {
    var path := Split(filter.field, '.');
    exists cell :: cell in Ends(record, path) && Meets(w, EndMeta(schema, model, path).value, filter, cell)
  }

  /** The record has the shape its model declares, along a path. */
  ghost predicate Shaped(schema: Schema, model: string, record: Record, path: seq<string>)
    requires path != []
    decreases |path|
  {
    var meta := GetFieldMeta(schema, model, path[0]);
    meta.Some? ==>
      && path[0] in record.cells
      && var cell := record.cells[path[0]];
         if meta.value.kind.Object? then
           && cell.Linked? && (meta.value.isList || |cell.records| <= 1)
           && (|path| > 1 ==> forall r :: r in cell.records ==> Shaped(schema, meta.value.fieldType, r, path[1..]))
         else if meta.value.isList then cell.Many?
         else cell.Single?
  }

  // ---- one condition ----

  lemma {:induction false} EndsOfAllAre(records: seq<Record>, path: seq<string>, cell: Cell)
    requires path != []
    ensures cell in EndsOfAll(records, path) <==> exists r :: r in records && cell in Ends(r, path)
    decreases |records|
  {
    if records != [] {
      EndsOfAllAre(records[1..], path, cell);
      assert EndsOfAll(records, path) == Ends(records[0], path) + EndsOfAll(records[1..], path);
      assert forall r :: r in records <==> r == records[0] || r in records[1..];
    }
  }

  /** A filter compiles exactly when its path ends at a value field that can read its text. */
  lemma {:induction false} CompilesExactly(w: World, schema: Schema, model: string, path: seq<string>, filter: Filter)
    requires path != []
    ensures BuildCondition(w, schema, model, path, filter).Some?
       <==> EndMeta(schema, model, path).Some? && Readable(w, EndMeta(schema, model, path).value, filter)
    decreases |path|
  {
    if |path| > 1 {
      var meta := GetFieldMeta(schema, model, path[0]);
      if meta.Some? && meta.value.kind.Object? {
        CompilesExactly(w, schema, meta.value.fieldType, path[1..], filter);
      }
    }
  }

  lemma TerminalMeaning(w: World, schema: Schema, model: string, field: string, filter: Filter, record: Record)
    requires GetFieldMeta(schema, model, field).Some?
    requires Shaped(schema, model, record, [field])
    requires BuildTerminal(w, GetFieldMeta(schema, model, field).value, field, filter).Some?
    requires Readable(w, GetFieldMeta(schema, model, field).value, filter)
    ensures var meta := GetFieldMeta(schema, model, field).value;
            field in record.cells &&
            (Eval(w, schema, model, BuildTerminal(w, meta, field, filter).value, record) <==> Meets(w, meta, filter, record.cells[field]))
  {
    hide Lower, Resembles;
    assert [field][0] == field;
  }

  /** The compiled condition holds of a record exactly when some value at the path's end meets the filter. */
  lemma {:induction false} ConditionMeaning(w: World, schema: Schema, model: string, path: seq<string>, filter: Filter, record: Record)
    requires path != [] && Shaped(schema, model, record, path)
    requires EndMeta(schema, model, path).Some? && Readable(w, EndMeta(schema, model, path).value, filter)
    ensures var condition := BuildCondition(w, schema, model, path, filter);
            condition.Some? &&
            (Eval(w, schema, model, condition.value, record)
             <==> exists cell :: cell in Ends(record, path) && Meets(w, EndMeta(schema, model, path).value, filter, cell))
    decreases |path|
  {
    hide Meets, BuildTerminal, Readable;
    CompilesExactly(w, schema, model, path, filter);
    var meta := GetFieldMeta(schema, model, path[0]).value;
    if |path| == 1 {
      assert path == [path[0]];
      TerminalMeaning(w, schema, model, path[0], filter, record);
      assert Ends(record, path) == [record.cells[path[0]]];
    } else {
      var rest, records := path[1..], record.cells[path[0]].records;
      var end := EndMeta(schema, model, path).value;
      forall r | r in records
        ensures var nested := BuildCondition(w, schema, meta.fieldType, rest, filter);
                nested.Some? && (Eval(w, schema, meta.fieldType, nested.value, r)
                                 <==> exists cell :: cell in Ends(r, rest) && Meets(w, end, filter, cell))
      {
        ConditionMeaning(w, schema, meta.fieldType, rest, filter, r);
      }
      forall cell: Cell {
        EndsOfAllAre(records, rest, cell);
      }
    }
  }

  // ---- what each operator asks of a value ----

  /** Lower-casing turns each capital into its small letter and leaves every other character. */
  lemma LowerExactly(s: string, i: nat, k: nat)
    requires i < |s| && k < 26
    ensures |Lower(s)| == |s|
    ensures s[i] == "ABCDEFGHIJKLMNOPQRSTUVWXYZ"[k] ==> Lower(s)[i] == "abcdefghijklmnopqrstuvwxyz"[k]
    ensures s[i] !in "ABCDEFGHIJKLMNOPQRSTUVWXYZ" ==> Lower(s)[i] == s[i]
  {
    var capitals, smalls := "ABCDEFGHIJKLMNOPQRSTUVWXYZ", "abcdefghijklmnopqrstuvwxyz";
    assert forall j: nat :: j < 26 ==> capitals[j] as nat == 'A' as nat + j && smalls[j] as nat == 'a' as nat + j;
    assert 'A' <= s[i] <= 'Z' ==> s[i] == capitals[s[i] as nat - 'A' as nat];
  }

  /** Texts: equality and inequality as written, the others without regard to case. */
  lemma TextFilters(w: World, meta: Field, field: string, text: string, value: string)
    requires meta.fieldType == "String" && Lower(text) != "null" && Lower(text) != "undefined"
    ensures forall operator :: Readable(w, meta, Compare(field, operator, text))
    ensures var cell, s, t := Single(Some(Word(value))), w.fold(value), w.fold(text);
            && (Meets(w, meta, Compare(field, StartsWith, text), cell) <==> |t| <= |s| && s[..|t|] == t)
            && (Meets(w, meta, Compare(field, EndsWith, text), cell) <==> |t| <= |s| && s[|s| - |t|..] == t)
            && (Meets(w, meta, Compare(field, Contains, text), cell) <==> exists k: nat :: OccursAt(s, t, k))
            && (Meets(w, meta, Compare(field, Differs, text), cell) <==> value != text)
            && forall operator :: operator in {Equals, Above, AtLeast, Below, AtMost} ==>
                 (Meets(w, meta, Compare(field, operator, text), cell) <==> value == text)
  {
    hide Lower, Resembles;
    WordsResemble(w, value, text);
  }

  lemma WordsResemble(w: World, value: string, text: string)
    ensures var v, p, s, t := Word(value), Word(text), w.fold(value), w.fold(text);
            && (Resembles(w, StartsWith, v, p) <==> |t| <= |s| && s[..|t|] == t)
            && (Resembles(w, EndsWith, v, p) <==> |t| <= |s| && s[|s| - |t|..] == t)
            && (Resembles(w, Contains, v, p) <==> exists k: nat :: OccursAt(s, t, k))
  {
    var s, t := w.fold(value), w.fold(text);
    OccursExactly(s, t);
  }

  lemma OccursExactly(s: string, t: string)
    ensures (exists k: nat :: OccursAt(s, t, k)) <==> exists k :: 0 <= k <= |s| && t <= s[k..]
  {
    forall k: nat | OccursAt(s, t, k) ensures t <= s[k..] {
      assert s[k..][..|t|] == s[k..k + |t|];
    }
    forall k: nat | k <= |s| && t <= s[k..] ensures OccursAt(s, t, k) {
      assert s[k..][..|t|] == s[k..k + |t|];
    }
  }

  /** The text as a number or an instant, for the types that are ordered. */
  function Bound(w: World, fieldType: string, text: string): Option<Value> {
    match fieldType
    case "Int" => w.integer(text)
    case "BigInt" => w.integer(text)
    case "Float" => w.decimal(text)
    case "Decimal" => w.decimal(text)
    case "DateTime" => w.date(text)
    case _ => None
  }

  /** Numbers and instants: above is above, below is below, and a range includes both ends. */
  lemma OrderedFilters(w: World, meta: Field, field: string, text: string, high: string, v: Value)
    requires Lower(text) != "null" && Lower(text) != "undefined"
    requires Bound(w, meta.fieldType, text).Some? && Bound(w, meta.fieldType, high).Some?
    ensures Readable(w, meta, Range(field, text, high))
    ensures forall operator :: Readable(w, meta, Compare(field, operator, text))
    ensures var cell, low, top := Single(Some(v)), Bound(w, meta.fieldType, text).value, Bound(w, meta.fieldType, high).value;
            && (Meets(w, meta, Compare(field, Above, text), cell) <==> !w.atMost(v, low))
            && (Meets(w, meta, Compare(field, AtLeast, text), cell) <==> w.atMost(low, v))
            && (Meets(w, meta, Compare(field, Below, text), cell) <==> !w.atMost(low, v))
            && (Meets(w, meta, Compare(field, AtMost, text), cell) <==> w.atMost(v, low))
            && (Meets(w, meta, Compare(field, Differs, text), cell) <==> v != low)
            && (Meets(w, meta, Range(field, text, high), cell) <==> w.atMost(low, v) && w.atMost(v, top))
            && forall operator :: operator in {Equals, StartsWith, EndsWith, Contains} ==>
                 (Meets(w, meta, Compare(field, operator, text), cell) <==> v == low)
  {
  }

  /** Flags, documents and every other type: only equality and inequality are offered. */
  lemma OtherFilters(w: World, meta: Field, field: string, operator: Operator, text: string, v: Value)
    requires meta.fieldType !in {"String", "Int", "BigInt", "Float", "Decimal", "DateTime"}
    requires Lower(text) != "null" && Lower(text) != "undefined"
    ensures Readable(w, meta, Compare(field, operator, text))
    ensures var operand := if meta.fieldType == "Boolean" then Flag(Lower(text) in {"true", "yes"} || text == "1")
                           else if meta.fieldType == "Json" then w.json(text) else Word(text);
            Meets(w, meta, Compare(field, operator, text), Single(Some(v))) <==> if operator == Differs then v != operand else v == operand
  {
  }

  /** The words null and undefined, in any case, ask for a null; every other filter is not met by one. */
  lemma NullFilters(w: World, meta: Field, field: string, operator: Operator, text: string, cell: Cell)
    requires Readable(w, meta, Compare(field, operator, text))
    ensures Lower(text) in {"null", "undefined"} ==> (Meets(w, meta, Compare(field, operator, text), cell) <==> cell == Single(None))
    ensures Lower(text) !in {"null", "undefined"} ==> !Meets(w, meta, Compare(field, operator, text), Single(None))
  {
  }
}
