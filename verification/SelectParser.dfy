/**
 The `fields` query parameter: "a,b(c,d(e))" parsed into a select object. A select object is
 kept as its entries in insertion order; setting a key again replaces its value in place.
 */
module SelectParser {
  import opened Common
  import opened DataModel
  import opened Text

  /** A selected key: `true`, or a nested select. */
  datatype Entry = Leaf(name: string) | Nested(name: string, children: seq<Entry>)

  predicate PlainChar(c: char) {
    c != '(' && c != ')' && c != ',' && c != '.' && !IsBlank(c)
  }

  predicate Plain(name: string) {
    name != "" && forall i :: 0 <= i < |name| ==> PlainChar(name[i])
  }

  /** Field names of a schema are identifiers: nonempty, without blanks, commas, dots or parentheses. */
  ghost predicate WellNamed(schema: Schema) {
    && (forall m, f :: m in schema.models && f in schema.models[m] ==> Plain(f))
    && (forall m, f :: m in schema.types && f in schema.types[m] ==> Plain(f))
  }

  /** The model a nested select is read against. */
  function Related(schema: Schema, model: string, field: string): string {
    var meta := GetFieldMeta(schema, model, field);
    if meta.Some? && meta.value.fieldType != "" then meta.value.fieldType else model
  }

  // ---- tokens ----

  function Flush(current: string): seq<string> {
    if Trim(current) == "" then [] else [Trim(current)]
  }

  /** Splitting at the commas outside parentheses, from a scan state on. */
  function TokensFrom(s: string, current: string, depth: int): (tokens: seq<string>)
    ensures forall i :: 0 <= i < |tokens| ==> |tokens[i]| <= |current| + |s|
    decreases |s|
  {
    if s == "" then Flush(current)
    else if s[0] == '(' then TokensFrom(s[1..], current + [s[0]], depth + 1)
    else if s[0] == ')' then TokensFrom(s[1..], current + [s[0]], depth - 1)
    else if s[0] == ',' && depth == 0 then Flush(current) + TokensFrom(s[1..], "", depth)
    else TokensFrom(s[1..], current + [s[0]], depth)
  }

  lemma TokensStep(fields: string, i: nat, current: string, depth: int)
    requires i < |fields|
    ensures var c, rest := fields[i], fields[i + 1..];
            TokensFrom(fields[i..], current, depth) ==
            if c == '(' then TokensFrom(rest, current + [c], depth + 1)
            else if c == ')' then TokensFrom(rest, current + [c], depth - 1)
            else if c == ',' && depth == 0 then Flush(current) + TokensFrom(rest, "", depth)
            else TokensFrom(rest, current + [c], depth)
  {
    assert fields[i..][1..] == fields[i + 1..];
  }

  method TokenizeFields(fields: string) returns (tokens: seq<string>)
    ensures tokens == TokensFrom(fields, "", 0)
  {
    hide Trim;
    tokens := [];
    var current, depth, i := "", 0, 0;
    assert fields[0..] == fields;
    while i < |fields|
      invariant 0 <= i <= |fields|
      invariant tokens + TokensFrom(fields[i..], current, depth) == TokensFrom(fields, "", 0)
    {
      hide TokensFrom;
      var c := fields[i];
      TokensStep(fields, i, current, depth);
      if c == '(' {
        depth := depth + 1;
        current := current + [c];
      } else if c == ')' {
        depth := depth - 1;
        current := current + [c];
      } else if c == ',' && depth == 0 {
        if Trim(current) != "" {
          tokens := tokens + [Trim(current)];
        }
        current := "";
      } else {
        current := current + [c];
      }
      i := i + 1;
    }
    if Trim(current) != "" {
      tokens := tokens + [Trim(current)];
    }
  }

  // ---- parsing ----

  /** String.prototype.substring: the bounds are swapped when they are out of order. */
  function Substring(s: string, a: nat, b: nat): string
    requires a <= |s| && b <= |s|
  {
    if a <= b then s[a..b] else s[b..a]
  }

  /** Setting a key of the select object. */
  function Put(entries: seq<Entry>, entry: Entry): seq<Entry> {
    if entries == [] then [entry]
    else if entries[0].name == entry.name then [entry] + entries[1..]
    else [entries[0]] + Put(entries[1..], entry)
  }

  /** Every selected name is a field of its own level's model, and no nested select is empty. */
  ghost predicate Sound(schema: Schema, model: string, entries: seq<Entry>)
    decreases entries
  {
    forall i :: 0 <= i < |entries| ==>
      && IsValidField(schema, model, entries[i].name)
      && (entries[i].Nested? ==>
            && entries[i].children != []
            && Sound(schema, Related(schema, model, entries[i].name), entries[i].children))
  }

  ghost predicate DistinctNames(entries: seq<Entry>) {
    forall i, j :: 0 <= i < j < |entries| ==> entries[i].name != entries[j].name
  }

  lemma {:induction false} PutSound(schema: Schema, model: string, entries: seq<Entry>, entry: Entry)
    requires Sound(schema, model, entries) && DistinctNames(entries) && Sound(schema, model, [entry])
    ensures Sound(schema, model, Put(entries, entry)) && DistinctNames(Put(entries, entry))
    ensures forall i :: 0 <= i < |Put(entries, entry)| ==>
              Put(entries, entry)[i].name == entry.name || exists j :: 0 <= j < |entries| && entries[j].name == Put(entries, entry)[i].name
  {
    assert [entry][0] == entry;
    if entries != [] && entries[0].name != entry.name {
      var tail := entries[1..];
      assert forall i :: 0 <= i < |tail| ==> tail[i] == entries[i + 1];
      PutSound(schema, model, tail, entry);
      var rest := Put(tail, entry);
      forall i | 0 <= i < |rest|
        ensures rest[i].name == entry.name || exists j :: 0 <= j < |entries| && entries[j].name == rest[i].name
        ensures rest[i].name != entries[0].name
      {
        if rest[i].name != entry.name {
          var j :| 0 <= j < |tail| && tail[j].name == rest[i].name;
          assert entries[j + 1].name == rest[i].name;
        }
      }
    }
  }

  /** Parsing a field list. The recursion ends because every nested text is shorter. */
  function ParseFields(schema: Schema, fields: string, model: string): (result: seq<Entry>)
    requires WellNamed(schema)
    ensures Sound(schema, model, result) && DistinctNames(result)
    decreases |fields|, 2, 0
  {
    ParseTokens(schema, TokensFrom(fields, "", 0), model, [], |fields|)
  }

  function ParseTokens(schema: Schema, tokens: seq<string>, model: string, acc: seq<Entry>, bound: nat): (result: seq<Entry>)
    requires WellNamed(schema)
    requires forall i :: 0 <= i < |tokens| ==> |tokens[i]| <= bound
    requires Sound(schema, model, acc) && DistinctNames(acc)
    ensures Sound(schema, model, result) && DistinctNames(result)
    decreases bound, 1, |tokens|
  {
    if tokens == [] then acc
    else ParseTokens(schema, tokens[1..], model, ParseToken(schema, tokens[0], model, acc), bound)
  }

  /** One token: a known plain name, or a known name whose nested select is not empty. */
  function ParseToken(schema: Schema, raw: string, model: string, acc: seq<Entry>): (result: seq<Entry>)
    requires WellNamed(schema)
    requires Sound(schema, model, acc) && DistinctNames(acc)
    ensures Sound(schema, model, result) && DistinctNames(result)
    decreases |raw|, 0, 0
  {
    var token := Trim(raw);
    if token == "" then acc
    else
      var paren := IndexOf(token, '(');
      if paren == -1 then
        if IsValidField(schema, model, token) then PutSelected(schema, model, acc, Leaf(token)) else acc
      else
        var name := token[..paren];
        if !IsValidField(schema, model, name) then acc
        else
          assert Plain(name);
          var nested := ParseFields(schema, Substring(token, paren + 1, |token| - 1), Related(schema, model, name));
          if nested == [] then acc else PutSelected(schema, model, acc, Nested(name, nested))
  }

  function PutSelected(schema: Schema, model: string, acc: seq<Entry>, entry: Entry): (result: seq<Entry>)
    requires Sound(schema, model, acc) && DistinctNames(acc) && Sound(schema, model, [entry])
    ensures Sound(schema, model, result) && DistinctNames(result)
    ensures result == Put(acc, entry)
  {
    PutSound(schema, model, acc, entry);
    Put(acc, entry)
  }

  lemma ParseStep(schema: Schema, tokens: seq<string>, i: nat, model: string, acc: seq<Entry>, bound: nat)
    requires i < |tokens| && WellNamed(schema) && Sound(schema, model, acc) && DistinctNames(acc)
    requires forall k :: 0 <= k < |tokens| ==> |tokens[k]| <= bound
    ensures ParseTokens(schema, tokens[i..], model, acc, bound)
         == ParseTokens(schema, tokens[i + 1..], model, ParseToken(schema, tokens[i], model, acc), bound)
  {
    assert tokens[i..][0] == tokens[i] && tokens[i..][1..] == tokens[i + 1..];
  }

  method ParseFieldsWithParentheses(schema: Schema, fields: string, model: string) returns (result: seq<Entry>)
    requires WellNamed(schema)
    ensures result == ParseFields(schema, fields, model)
    decreases |fields|
  {
    hide Trim, Sound, DistinctNames, TokensFrom, Put;
    var tokens := TokenizeFields(fields);
    result := [];
    EmptySound(schema, model);
    var i := 0;
    assert tokens[0..] == tokens;
    while i < |tokens|
      invariant 0 <= i <= |tokens|
      invariant Sound(schema, model, result) && DistinctNames(result)
      invariant ParseTokens(schema, tokens[i..], model, result, |fields|) == ParseFields(schema, fields, model)
    {
      hide ParseTokens, ParseFields;
      ParseStep(schema, tokens, i, model, result, |fields|);
      var token := Trim(tokens[i]);
      if token != "" {
        var paren := IndexOf(token, '(');
        if paren == -1 {
          if IsValidField(schema, model, token) {
            LeafSound(schema, model, token);
            result := PutSelected(schema, model, result, Leaf(token));
          }
        } else {
          var name := token[..paren];
          if IsValidField(schema, model, name) {
            assert Plain(name);
            var nested := ParseFieldsWithParentheses(schema, Substring(token, paren + 1, |token| - 1), Related(schema, model, name));
            if nested != [] {
              NestedSound(schema, model, name, nested);
              result := PutSelected(schema, model, result, Nested(name, nested));
            }
          }
        }
      }
      i := i + 1;
    }
  }

  lemma EmptySound(schema: Schema, model: string)
    ensures Sound(schema, model, []) && DistinctNames([])
  {
  }

  lemma LeafSound(schema: Schema, model: string, name: string)
    requires IsValidField(schema, model, name)
    ensures Sound(schema, model, [Leaf(name)])
  {
  }

  lemma NestedSound(schema: Schema, model: string, name: string, nested: seq<Entry>)
    requires IsValidField(schema, model, name) && nested != [] && Sound(schema, Related(schema, model, name), nested)
    ensures Sound(schema, model, [Nested(name, nested)])
  {
  }

  // ---- printing, and the round trip ----

  function PrintEntry(e: Entry): string
    decreases e
  {
    e.name + if e.Nested? then "(" + PrintTree(e.children) + ")" else ""
  }

  function PrintTree(tree: seq<Entry>): string
    decreases tree
  {
    if tree == [] then ""
    else if |tree| == 1 then PrintEntry(tree[0])
    else PrintEntry(tree[0]) + "," + PrintTree(tree[1..])
  }

  /** A select tree one could mean: distinct known fields, nested selects not empty. */
  ghost predicate WellFormed(schema: Schema, model: string, tree: seq<Entry>)
    decreases tree
  {
    && DistinctNames(tree)
    && forall i :: 0 <= i < |tree| ==>
         && IsValidField(schema, model, tree[i].name)
         && (tree[i].Nested? ==>
               && tree[i].children != []
               && WellFormed(schema, Related(schema, model, tree[i].name), tree[i].children))
  }

  lemma {:induction false} ScanPlain(name: string, rest: string, current: string, depth: int)
    requires forall i :: 0 <= i < |name| ==> PlainChar(name[i])
    ensures TokensFrom(name + rest, current, depth) == TokensFrom(rest, current + name, depth)
    decreases |name|
  {
    if name == "" {
      assert name + rest == rest && current + name == current;
    } else {
      assert PlainChar(name[0]);
      assert (name + rest)[1..] == name[1..] + rest;
      ScanPlain(name[1..], rest, current + [name[0]], depth);
      assert current + [name[0]] + name[1..] == current + name;
    }
  }

  lemma ScanOne(c: char, rest: string, current: string, depth: int)
    requires c == '(' || c == ')' || (c == ',' && depth != 0)
    ensures TokensFrom([c] + rest, current, depth)
         == TokensFrom(rest, current + [c], if c == '(' then depth + 1 else if c == ')' then depth - 1 else depth)
  {
    assert ([c] + rest)[1..] == rest;
  }

  lemma ScanTopComma(rest: string, current: string)
    ensures TokensFrom("," + rest, current, 0) == Flush(current) + TokensFrom(rest, "", 0)
  {
    assert ("," + rest)[1..] == rest;
  }

  lemma ScanEnd(current: string)
    ensures TokensFrom("", current, 0) == Flush(current)
  {
  }

  /** A printed entry is scanned whole at any depth: its own commas are all inside. */
  lemma {:induction false} ScanEntry(schema: Schema, model: string, e: Entry, rest: string, current: string, depth: nat)
    requires WellNamed(schema) && WellFormed(schema, model, [e])
    ensures TokensFrom(PrintEntry(e) + rest, current, depth) == TokensFrom(rest, current + PrintEntry(e), depth)
    decreases e, 0
  {
    assert [e][0] == e;
    assert Plain(e.name);
    if e.Leaf? {
      ScanPlain(e.name, rest, current, depth);
      assert PrintEntry(e) == e.name;
    } else {
      var inner := PrintTree(e.children);
      var tail := ")" + rest;
      assert PrintEntry(e) + rest == e.name + ("(" + (inner + tail));
      ScanPlain(e.name, "(" + (inner + tail), current, depth);
      ScanOne('(', inner + tail, current + e.name, depth);
      ScanTree(schema, Related(schema, model, e.name), e.children, tail, current + e.name + "(", depth + 1);
      ScanOne(')', rest, current + e.name + "(" + inner, depth + 1);
      assert current + e.name + "(" + inner + ")" == current + PrintEntry(e);
    }
  }

  lemma {:induction false} ScanTree(schema: Schema, model: string, tree: seq<Entry>, rest: string, current: string, depth: nat)
    requires WellNamed(schema) && WellFormed(schema, model, tree) && depth > 0
    ensures TokensFrom(PrintTree(tree) + rest, current, depth) == TokensFrom(rest, current + PrintTree(tree), depth)
    decreases tree, 1
  {
    if tree == [] {
      assert PrintTree(tree) + rest == rest && current + PrintTree(tree) == current;
    } else if |tree| == 1 {
      assert tree == [tree[0]];
      ScanEntry(schema, model, tree[0], rest, current, depth);
    } else {
      var first, others := PrintEntry(tree[0]), PrintTree(tree[1..]);
      FormedParts(schema, model, tree);
      assert PrintTree(tree) + rest == first + ("," + (others + rest));
      ScanEntry(schema, model, tree[0], "," + (others + rest), current, depth);
      ScanOne(',', others + rest, current + first, depth);
      ScanTree(schema, model, tree[1..], rest, current + first + ",", depth);
      assert current + first + "," + others == current + PrintTree(tree);
    }
  }

  lemma FormedParts(schema: Schema, model: string, tree: seq<Entry>)
    requires tree != [] && WellFormed(schema, model, tree)
    ensures WellFormed(schema, model, [tree[0]]) && WellFormed(schema, model, tree[1..])
  {
    var one, tail := [tree[0]], tree[1..];
    assert forall i :: 0 <= i < |tail| ==> tail[i] == tree[i + 1];
  }

  lemma EntryEnds(schema: Schema, model: string, e: Entry)
    requires WellNamed(schema) && WellFormed(schema, model, [e])
    ensures Plain(e.name) && PrintEntry(e) != "" && Trim(PrintEntry(e)) == PrintEntry(e)
  {
    assert [e][0] == e;
    var p := PrintEntry(e);
    assert Plain(e.name);
    assert p[0] == e.name[0] && PlainChar(e.name[0]);
    if e.Leaf? {
      assert p == e.name && PlainChar(e.name[|e.name| - 1]);
    } else {
      assert p[|p| - 1] == ')';
    }
  }

  function PrintedEntries(tree: seq<Entry>): seq<string> {
    seq(|tree|, i requires 0 <= i < |tree| => PrintEntry(tree[i]))
  }

  /** Tokenizing a printed tree gives its printed entries. */
  lemma {:induction false} TokensOfTree(schema: Schema, model: string, tree: seq<Entry>)
    requires WellNamed(schema) && WellFormed(schema, model, tree) && tree != []
    ensures TokensFrom(PrintTree(tree), "", 0) == PrintedEntries(tree)
    decreases |tree|
  {
    hide TokensFrom, PrintEntry, Trim, WellFormed;
    var first := PrintEntry(tree[0]);
    FormedParts(schema, model, tree);
    EntryEnds(schema, model, tree[0]);
    if |tree| == 1 {
      assert tree == [tree[0]];
      ScanEntry(schema, model, tree[0], "", "", 0);
      assert first + "" == first && "" + first == first;
      ScanEnd(first);
      assert PrintedEntries(tree) == [first];
    } else {
      var others := PrintTree(tree[1..]);
      assert PrintTree(tree) == first + ("," + others);
      ScanEntry(schema, model, tree[0], "," + others, "", 0);
      assert "" + first == first;
      ScanTopComma(others, first);
      TokensOfTree(schema, model, tree[1..]);
      assert PrintedEntries(tree) == [first] + PrintedEntries(tree[1..]);
    }
  }

  lemma {:induction false} PutFresh(entries: seq<Entry>, entry: Entry)
    requires forall i :: 0 <= i < |entries| ==> entries[i].name != entry.name
    ensures Put(entries, entry) == entries + [entry]
  {
    if entries != [] {
      PutFresh(entries[1..], entry);
      assert entries == [entries[0]] + entries[1..];
    }
  }

  lemma NestedText(e: Entry)
    requires Plain(e.name) && e.Nested?
    ensures var p := PrintEntry(e);
            && IndexOf(p, '(') == |e.name| && p[..|e.name|] == e.name
            && Substring(p, |e.name| + 1, |p| - 1) == PrintTree(e.children)
  {
    var p, inner := PrintEntry(e), PrintTree(e.children);
    assert p == e.name + ("(" + inner + ")");
    assert p[|e.name|] == '(';
    assert forall k :: 0 <= k < |e.name| ==> p[k] == e.name[k] && PlainChar(e.name[k]);
  }

  lemma PlainText(e: Entry)
    requires Plain(e.name) && e.Leaf?
    ensures PrintEntry(e) == e.name && IndexOf(e.name, '(') == -1
  {
    assert forall k :: 0 <= k < |e.name| ==> PlainChar(e.name[k]);
  }

  lemma WellFormedIsSound(schema: Schema, model: string, tree: seq<Entry>)
    requires WellFormed(schema, model, tree)
    ensures Sound(schema, model, tree) && DistinctNames(tree)
    decreases tree
  {
    forall i | 0 <= i < |tree| && tree[i].Nested?
      ensures Sound(schema, Related(schema, model, tree[i].name), tree[i].children)
    {
      WellFormedIsSound(schema, Related(schema, model, tree[i].name), tree[i].children);
    }
  }

  /** Parsing one printed entry adds it. */
  lemma ParseOneEntry(schema: Schema, model: string, e: Entry, acc: seq<Entry>)
    requires WellNamed(schema) && WellFormed(schema, model, [e]) && Sound(schema, model, acc) && DistinctNames(acc)
    requires forall i :: 0 <= i < |acc| ==> acc[i].name != e.name
    requires e.Nested? ==> ParseFields(schema, PrintTree(e.children), Related(schema, model, e.name)) == e.children
    ensures ParseToken(schema, PrintEntry(e), model, acc) == acc + [e]
  {
    hide Trim, Sound, DistinctNames, PrintEntry, PrintTree, Put, ParseToken, WellFormed;
    EntryEnds(schema, model, e);
    EntryIsField(schema, model, e);
    PutFresh(acc, e);
    if e.Nested? {
      NestedText(e);
      ParseNestedToken(schema, model, e, acc);
    } else {
      PlainText(e);
      ParseLeafToken(schema, model, e, acc);
    }
  }

  lemma EntryIsField(schema: Schema, model: string, e: Entry)
    requires WellFormed(schema, model, [e])
    ensures IsValidField(schema, model, e.name) && (e.Nested? ==> e.children != [])
  {
    assert [e][0] == e;
  }

  lemma ParseLeafToken(schema: Schema, model: string, e: Entry, acc: seq<Entry>)
    requires WellNamed(schema) && Sound(schema, model, acc) && DistinctNames(acc)
    requires e.Leaf? && IsValidField(schema, model, e.name) && Trim(e.name) == e.name != "" && IndexOf(e.name, '(') == -1
    ensures ParseToken(schema, e.name, model, acc) == Put(acc, e)
  {
    hide Trim, Sound, DistinctNames, IndexOf, Put;
  }

  lemma ParseNestedToken(schema: Schema, model: string, e: Entry, acc: seq<Entry>)
    requires WellNamed(schema) && Sound(schema, model, acc) && DistinctNames(acc)
    requires e.Nested? && e.children != [] && IsValidField(schema, model, e.name)
    requires var p := PrintEntry(e);
             && Trim(p) == p != "" && IndexOf(p, '(') == |e.name| && p[..|e.name|] == e.name
             && Substring(p, |e.name| + 1, |p| - 1) == PrintTree(e.children)
    requires ParseFields(schema, PrintTree(e.children), Related(schema, model, e.name)) == e.children
    ensures ParseToken(schema, PrintEntry(e), model, acc) == Put(acc, e)
  {
    hide Trim, Sound, DistinctNames, IndexOf, Put, PrintEntry, PrintTree, Substring, ParseFields, Related;
  }

  /** Parsing the printed entries from `k` on completes the tree. */
  lemma {:induction false} ParseEntries(schema: Schema, model: string, tree: seq<Entry>, k: nat, bound: nat)
    requires WellNamed(schema) && WellFormed(schema, model, tree) && k <= |tree|
    requires forall i :: 0 <= i < |tree| ==> |PrintEntry(tree[i])| <= bound
    ensures Sound(schema, model, tree[..k]) && DistinctNames(tree[..k])
    ensures ParseTokens(schema, PrintedEntries(tree)[k..], model, tree[..k], bound) == tree
    decreases tree, 0, |tree| - k
  {
    hide ParseToken, ParseFields, WellNamed;
    WellFormedIsSound(schema, model, tree);
    var tokens := PrintedEntries(tree)[k..];
    if k == |tree| {
      assert tree[..k] == tree && tokens == [];
    } else {
      var e := tree[k];
      FormedAt(schema, model, tree, k);
      assert tokens[0] == PrintEntry(e) && tokens[1..] == PrintedEntries(tree)[k + 1..];
      if e.Nested? {
        RoundTrip(schema, Related(schema, model, e.name), e.children);
      }
      ParseOneEntry(schema, model, e, tree[..k]);
      assert tree[..k] + [e] == tree[..k + 1];
      ParseEntries(schema, model, tree, k + 1, bound);
    }
  }

  lemma FormedAt(schema: Schema, model: string, tree: seq<Entry>, k: nat)
    requires k < |tree| && WellFormed(schema, model, tree)
    ensures WellFormed(schema, model, [tree[k]])
  {
  }

  lemma {:induction false} EntriesFit(tree: seq<Entry>, i: nat)
    requires i < |tree|
    ensures |PrintEntry(tree[i])| <= |PrintTree(tree)|
    decreases |tree|
  {
    if i > 0 {
      EntriesFit(tree[1..], i - 1);
    }
  }

  /** Parsing the printed form of any well-formed select tree returns the tree. */
  lemma {:induction false} RoundTrip(schema: Schema, model: string, tree: seq<Entry>)
    requires WellNamed(schema) && WellFormed(schema, model, tree)
    ensures ParseFields(schema, PrintTree(tree), model) == tree
    decreases tree, 1, 0
  {
    if tree == [] {
      assert TokensFrom("", "", 0) == [];
    } else {
      TokensOfTree(schema, model, tree);
      forall i | 0 <= i < |tree| ensures |PrintEntry(tree[i])| <= |PrintTree(tree)| {
        EntriesFit(tree, i);
      }
      assert PrintedEntries(tree)[0..] == PrintedEntries(tree) && tree[..0] == [];
      ParseEntries(schema, model, tree, 0, |PrintTree(tree)|);
    }
  }

  // ---- the entry point, with the older dotted notation ----

  datatype Selection = Everything | Selected(entries: seq<Entry>) | Thrown

  function Find(entries: seq<Entry>, name: string): (found: Option<Entry>)
    ensures found.Some? ==> found.value.name == name
  {
    if entries == [] then None
    else if entries[0].name == name then Some(entries[0])
    else Find(entries[1..], name)
  }

  /** Selecting a dotted path. Descending into a key already selected as a plain field throws. */
  function SetPath(entries: seq<Entry>, path: seq<string>): Option<seq<Entry>>
    requires path != []
    decreases |path|
  {
    if |path| == 1 then Some(Put(entries, Leaf(path[0])))
    else
      var at := Find(entries, path[0]);
      if at.Some? && at.value.Leaf? then None
      else
        var inner := SetPath(if at.Some? then at.value.children else [], path[1..]);
        if inner.None? then None else Some(Put(entries, Nested(path[0], inner.value)))
  }

  function LegacyField(schema: Schema, model: string, acc: seq<Entry>, field: string): Option<seq<Entry>> {
    var path := Split(Trim(field), '.');
    if IsValidField(schema, model, path[0]) then SetPath(acc, path) else Some(acc)
  }

  function LegacyFields(schema: Schema, model: string, acc: seq<Entry>, fields: seq<string>): Selection
    decreases |fields|
  {
    if fields == [] then Selected(acc)
    else
      var next := LegacyField(schema, model, acc, fields[0]);
      if next.None? then Thrown else LegacyFields(schema, model, next.value, fields[1..])
  }

  function Selects(schema: Schema, fields: string, model: string): (selection: Selection)
    requires WellNamed(schema)
    ensures '(' in fields ==> selection.Selected? && Sound(schema, model, selection.entries) && DistinctNames(selection.entries)
  {
    if fields == "" then Everything
    else if '(' in fields then Selected(ParseFields(schema, fields, model))
    else LegacyFields(schema, model, [], Split(fields, ','))
  }

  method GetNestedFields(schema: Schema, fields: string, model: string) returns (selection: Selection)
    requires WellNamed(schema)
    ensures selection == Selects(schema, fields, model)
  {
    if fields == "" {
      return Everything;
    }
    if '(' in fields {
      var entries := ParseFieldsWithParentheses(schema, fields, model);
      return Selected(entries);
    }
    var parts := Split(fields, ',');
    var acc, i := [], 0;
    assert parts[0..] == parts;
    while i < |parts|
      invariant 0 <= i <= |parts|
      invariant LegacyFields(schema, model, acc, parts[i..]) == Selects(schema, fields, model)
    {
      var next := LegacyField(schema, model, acc, parts[i]);
      assert parts[i..][0] == parts[i] && parts[i..][1..] == parts[i + 1..];
      if next.None? {
        return Thrown;
      }
      acc := next.value;
      i := i + 1;
    }
    return Selected(acc);
  }

  /** In dotted notation only the first name of a path is checked, so only the top level is sound. */
  lemma {:induction false} LegacyHeadsAreFields(schema: Schema, model: string, acc: seq<Entry>, fields: seq<string>)
    requires forall i :: 0 <= i < |acc| ==> IsValidField(schema, model, acc[i].name)
    ensures var selection := LegacyFields(schema, model, acc, fields);
            selection.Selected? ==>
              forall i :: 0 <= i < |selection.entries| ==> IsValidField(schema, model, selection.entries[i].name)
    decreases |fields|
  {
    if fields != [] {
      var path := Split(Trim(fields[0]), '.');
      var next := LegacyField(schema, model, acc, fields[0]);
      if next.Some? {
        if IsValidField(schema, model, path[0]) {
          var at := Find(acc, path[0]);
          var inner := if |path| == 1 then None else SetPath(if at.Some? then at.value.children else [], path[1..]);
          PutNames(schema, model, acc, if |path| == 1 then Leaf(path[0]) else Nested(path[0], inner.value));
        }
        assert forall i :: 0 <= i < |next.value| ==> IsValidField(schema, model, next.value[i].name);
        LegacyHeadsAreFields(schema, model, next.value, fields[1..]);
        assert LegacyFields(schema, model, acc, fields) == LegacyFields(schema, model, next.value, fields[1..]);
      }
    }
  }

  lemma {:induction false} PutNames(schema: Schema, model: string, entries: seq<Entry>, entry: Entry)
    requires IsValidField(schema, model, entry.name)
    requires forall i :: 0 <= i < |entries| ==> IsValidField(schema, model, entries[i].name)
    ensures forall i :: 0 <= i < |Put(entries, entry)| ==> IsValidField(schema, model, Put(entries, entry)[i].name)
  {
    if entries != [] {
      PutNames(schema, model, entries[1..], entry);
    }
  }

  predicate Flat(tree: seq<Entry>) {
    forall i :: 0 <= i < |tree| ==> tree[i].Leaf?
  }

  /** Without nested entries the printed tree has no parenthesis, and splits back into its names. */
  lemma {:induction false} SplitFlat(schema: Schema, model: string, tree: seq<Entry>)
    requires WellNamed(schema) && WellFormed(schema, model, tree) && Flat(tree) && tree != []
    ensures '(' !in PrintTree(tree) && Split(PrintTree(tree), ',') == PrintedEntries(tree)
    decreases |tree|
  {
    hide Trim, WellFormed, Split;
    var name := tree[0].name;
    assert PrintEntry(tree[0]) == name;
    FormedParts(schema, model, tree);
    EntryEnds(schema, model, tree[0]);
    SplitPlain(name, ',');
    if |tree| == 1 {
      assert PrintedEntries(tree) == [name];
    } else {
      var others := PrintTree(tree[1..]);
      assert PrintTree(tree) == name + ("," + others);
      SplitHead(name, others);
      SplitFlat(schema, model, tree[1..]);
      assert PrintedEntries(tree) == [name] + PrintedEntries(tree[1..]);
    }
  }

  lemma SplitHead(name: string, others: string)
    requires Plain(name)
    ensures Split(name + ("," + others), ',') == [name] + Split(others, ',')
  {
    hide Trim;
    var p := name + ("," + others);
    assert forall k :: 0 <= k < |name| ==> p[k] == name[k] && PlainChar(name[k]);
    assert p[|name|] == ',';
    assert p[..|name|] == name && p[|name| + 1..] == others;
  }

  lemma {:induction false} LegacyFlat(schema: Schema, model: string, tree: seq<Entry>, k: nat)
    requires WellNamed(schema) && WellFormed(schema, model, tree) && Flat(tree) && k <= |tree|
    ensures LegacyFields(schema, model, tree[..k], PrintedEntries(tree)[k..]) == Selected(tree)
    decreases |tree| - k
  {
    var fields := PrintedEntries(tree)[k..];
    if k == |tree| {
      assert tree[..k] == tree && fields == [];
    } else {
      var e := tree[k];
      FormedAt(schema, model, tree, k);
      EntryEnds(schema, model, e);
      SplitPlain(e.name, '.');
      assert fields[0] == e.name && fields[1..] == PrintedEntries(tree)[k + 1..];
      PutFresh(tree[..k], e);
      assert tree[..k] + [e] == tree[..k + 1];
      LegacyFlat(schema, model, tree, k + 1);
    }
  }

  lemma SplitPlain(name: string, c: char)
    requires Plain(name) && !PlainChar(c)
    ensures Split(name, c) == [name] && '(' !in name
  {
    assert forall k :: 0 <= k < |name| ==> PlainChar(name[k]);
  }

  lemma {:induction false} NestedHasParenthesis(tree: seq<Entry>)
    requires !Flat(tree)
    ensures '(' in PrintTree(tree)
    decreases |tree|
  {
    if tree[0].Nested? {
      var p := PrintEntry(tree[0]);
      assert p[|tree[0].name|] == '(';
      assert '(' in p;
    } else {
      assert tree[0].Leaf?;
      assert exists i :: 0 <= i < |tree[1..]| && tree[1..][i].Nested? by {
        var i :| 0 <= i < |tree| && !tree[i].Leaf?;
        assert tree[1..][i - 1] == tree[i];
      }
      NestedHasParenthesis(tree[1..]);
    }
  }

  /** The whole entry point inverts printing, for every nonempty well-formed select tree. */
  lemma SelectionRoundTrip(schema: Schema, model: string, tree: seq<Entry>)
    requires WellNamed(schema) && WellFormed(schema, model, tree) && tree != []
    ensures Selects(schema, PrintTree(tree), model) == Selected(tree)
  {
    hide WellFormed, Trim;
    FormedParts(schema, model, tree);
    EntryEnds(schema, model, tree[0]);
    assert PrintTree(tree) != "";
    if Flat(tree) {
      SplitFlat(schema, model, tree);
      assert PrintedEntries(tree)[0..] == PrintedEntries(tree) && tree[..0] == [];
      LegacyFlat(schema, model, tree, 0);
    } else {
      NestedHasParenthesis(tree);
      RoundTrip(schema, model, tree);
    }
  }
}
