/** Filter expressions as written in the query string: `field:value`, `field>=value`, `field:low-high`. */
module FilterSyntax {
  import opened Common
  import opened Text

  datatype Operator = Equals | Differs | Above | AtLeast | Below | AtMost | StartsWith | EndsWith | Contains

  datatype Filter =
    | Compare(field: string, operator: Operator, text: string)
    | Range(field: string, low: string, high: string)

  predicate IsSymbol(c: char) {
    c == ':' || c == '>' || c == '<' || c == '!' || c == '^' || c == '$' || c == '~'
  }

  function Symbol(operator: Operator): (s: string)
    ensures 1 <= |s| <= 2
  {
    match operator
    case Equals => ":"
    case Differs => "!"
    case Above => ">"
    case AtLeast => ">="
    case Below => "<"
    case AtMost => "<="
    case StartsWith => "^"
    case EndsWith => "$"
    case Contains => "~"
  }

  predicate OccursAt(s: string, t: string, k: nat) {
    k + |t| <= |s| && s[k..k + |t|] == t
  }

  function IndexOfText(s: string, t: string): (i: int)
    requires t != ""
    ensures -1 <= i
    ensures i >= 0 ==> OccursAt(s, t, i)
    ensures forall k: nat :: i < 0 || k < i ==> !OccursAt(s, t, k)
    decreases |s|
  {
    if |s| < |t| then -1
    else if OccursAt(s, t, 0) then 0
    else
      var rest := IndexOfText(s[1..], t);
      assert forall k: nat :: k >= 1 && OccursAt(s, t, k) ==> OccursAt(s[1..], t, k - 1);
      assert rest >= 0 ==> OccursAt(s, t, rest + 1);
      if rest < 0 then -1 else rest + 1
  }

  /** The first of the operators whose symbol occurs. */
  function FirstOf(expr: string, operators: seq<Operator>): Option<Operator> {
    if operators == [] then None
    else if IndexOfText(expr, Symbol(operators[0])) >= 0 then Some(operators[0])
    else FirstOf(expr, operators[1..])
  }

  const LONG := [AtLeast, AtMost]
  const SHORT := [Above, Below, Differs, StartsWith, EndsWith, Contains]

  function OperatorOf(expr: string): Operator {
    var long := FirstOf(expr, LONG);
    if long.Some? then long.value
    else
      var short := FirstOf(expr, SHORT);
      if short.Some? then short.value else Equals
  }

  predicate IsDigits(s: string) {
    s != "" && forall i :: 0 <= i < |s| ==> '0' <= s[i] <= '9'
  }

  /** Digits, optionally followed by a point and more digits. */
  predicate IsNumeral(s: string) {
    var point := IndexOf(s, '.');
    if point < 0 then IsDigits(s) else IsDigits(s[..point]) && IsDigits(s[point + 1..])
  }

  predicate HasSymbol(s: string) {
    exists i :: 0 <= i < |s| && IsSymbol(s[i])
  }

  /** The shape `field:low-high`, the field free of operator symbols. */
  function RangeParts(expr: string): Option<Filter> {
    var colon := IndexOf(expr, ':');
    if colon <= 0 || HasSymbol(expr[..colon]) then None
    else
      var rest := expr[colon + 1..];
      var dash := IndexOf(rest, '-');
      if dash < 0 || !IsNumeral(rest[..dash]) || !IsNumeral(rest[dash + 1..]) then None
      else Some(Range(Trim(expr[..colon]), rest[..dash], rest[dash + 1..]))
  }

  function ParseFilterExpression(expr: string): Filter {
    var range := RangeParts(expr);
    if range.Some? then range.value
    else
      var operator := OperatorOf(expr);
      var at := IndexOfText(expr, Symbol(operator));
      if at < 0 then Compare(Trim(expr), operator, "")
      else Compare(Trim(expr[..at]), operator, Trim(expr[at + |Symbol(operator)|..]))
  }

  // ---- writing filters, and reading them back ----

  function Print(f: Filter): string {
    match f
    case Compare(field, Equals, text) => field + ":" + text
    case Compare(field, Differs, text) => field + "!" + text
    case Compare(field, Above, text) => field + ">" + text
    case Compare(field, AtLeast, text) => field + ">=" + text
    case Compare(field, Below, text) => field + "<" + text
    case Compare(field, AtMost, text) => field + "<=" + text
    case Compare(field, StartsWith, text) => field + "^" + text
    case Compare(field, EndsWith, text) => field + "$" + text
    case Compare(field, Contains, text) => field + "~" + text
    case Range(field, low, high) => field + ":" + low + "-" + high
  }

  /** The symbol looked for is the one written. */
  lemma PrintShows(f: Filter)
    requires f.Compare?
    ensures Print(f) == f.field + Symbol(f.operator) + f.text
  {
  }

  predicate Clean(s: string) {
    Trim(s) == s && !HasSymbol(s) && ',' !in s
  }

  /** A filter that can be written unambiguously. */
  predicate Writable(f: Filter) {
    && f.field != "" && Clean(f.field)
    && match f
       case Compare(_, operator, text) =>
         && Clean(text)
         && (operator == Equals ==> RangeParts(Print(f)).None?)
         && (operator == Above || operator == Below ==> text == "" || text[0] != '=')
       case Range(_, low, high) => IsNumeral(low) && IsNumeral(high)
  }

  lemma NumeralChars(s: string)
    requires IsNumeral(s)
    ensures s != "" && forall i :: 0 <= i < |s| ==> '0' <= s[i] <= '9' || s[i] == '.'
  {
    var point := IndexOf(s, '.');
    if point >= 0 {
      forall i | 0 <= i < |s| ensures '0' <= s[i] <= '9' || s[i] == '.' {
        if i < point {
          assert s[..point][i] == s[i];
        } else if i > point {
          assert s[point + 1..][i - point - 1] == s[i];
        }
      }
    }
  }

  lemma FirstIndex(s: string, c: char, i: nat)
    requires i < |s| && s[i] == c && forall k :: 0 <= k < i ==> s[k] != c
    ensures IndexOf(s, c) == i
  {
  }

  lemma RangeReadsBack(f: Filter)
    requires Writable(f) && f.Range?
    ensures ParseFilterExpression(Print(f)) == f
  {
    hide Trim, IsNumeral, IndexOf, HasSymbol;
    var rest := f.low + ("-" + f.high);
    assert Print(f) == f.field + (":" + rest);
    RangeHead(f.field, rest);
    RangeTail(f.low, f.high);
  }

  lemma RangeHead(field: string, rest: string)
    requires !HasSymbol(field)
    ensures var s := field + (":" + rest);
            IndexOf(s, ':') == |field| && s[..|field|] == field && s[|field| + 1..] == rest
  {
    hide IndexOf;
    var s := field + (":" + rest);
    assert forall k :: 0 <= k < |field| ==> s[k] == field[k] && !IsSymbol(field[k]);
    FirstIndex(s, ':', |field|);
  }

  lemma RangeTail(low: string, high: string)
    requires IsNumeral(low) && IsNumeral(high)
    ensures var rest := low + ("-" + high);
            IndexOf(rest, '-') == |low| && rest[..|low|] == low && rest[|low| + 1..] == high
  {
    hide IsNumeral, IndexOf;
    NumeralChars(low);
    var rest := low + ("-" + high);
    assert forall k :: 0 <= k < |low| ==> rest[k] == low[k];
    FirstIndex(rest, '-', |low|);
  }

  /** The operators whose symbol is found in a written comparison. */
  predicate Shows(written: Operator, operator: Operator) {
    operator == written || (operator == Above && written == AtLeast) || (operator == Below && written == AtMost)
  }

  lemma PrintedChars(f: Filter)
    requires Writable(f) && f.Compare?
    ensures var s, n, symbol := Print(f), |f.field|, Symbol(f.operator);
            && |s| == n + |symbol| + |f.text|
            && (forall k :: 0 <= k < n ==> !IsSymbol(s[k]))
            && s[n] == symbol[0]
            && (|symbol| == 2 ==> s[n + 1] == '=')
            && (forall k :: n + |symbol| <= k < |s| ==> !IsSymbol(s[k]))
            && (f.operator == Above || f.operator == Below ==> |s| == n + 1 || s[n + 1] != '=')
  {
    hide Trim, RangeParts, Print;
    PrintShows(f);
    var s, n, symbol := Print(f), |f.field|, Symbol(f.operator);
    assert s == f.field + (symbol + f.text);
    assert forall k :: 0 <= k < n ==> s[k] == f.field[k];
    assert forall k :: n + |symbol| <= k < |s| ==> s[k] == f.text[k - n - |symbol|];
  }

  lemma SymbolChars(operator: Operator)
    ensures var t := Symbol(operator); IsSymbol(t[0]) && !IsSymbol('=') && (|t| == 2 ==> t[1] == '=')
  {
  }

  lemma SymbolAt(f: Filter, operator: Operator)
    requires Writable(f) && f.Compare?
    ensures IndexOfText(Print(f), Symbol(operator)) == if Shows(f.operator, operator) then |f.field| else -1
  {
    hide Writable, Print, IsSymbol;
    PrintedChars(f);
    SymbolChars(operator);
    SymbolChars(f.operator);
    var s, n, t := Print(f), |f.field|, Symbol(operator);
    forall k: nat | OccursAt(s, t, k) ensures k == n && Shows(f.operator, operator) {
      assert s[k..k + |t|][0] == s[k];
      assert IsSymbol(s[k]);
      if |t| == 2 {
        assert s[k..k + |t|][1] == s[k + 1];
      }
    }
    if Shows(f.operator, operator) {
      assert n + |t| <= |s| && s[n] == t[0] && (|t| == 2 ==> s[n + 1] == t[1]);
      assert s[n..n + |t|] == t;
      assert OccursAt(s, t, n);
    }
  }

  lemma OperatorReadsBack(f: Filter)
    requires Writable(f) && f.Compare?
    ensures OperatorOf(Print(f)) == f.operator
  {
    hide Writable, Print, IndexOfText, Symbol, OccursAt, Found;
    forall operator: Operator ensures Found(Print(f), operator) == Shows(f.operator, operator) {
      FoundWhenShown(f, operator);
    }
    var s := Print(f);
    FirstStep(s, AtLeast, [AtMost]);
    FirstStep(s, AtMost, []);
    FirstStep(s, Above, SHORT[1..]);
    FirstStep(s, Below, SHORT[2..]);
    FirstStep(s, Differs, SHORT[3..]);
    FirstStep(s, StartsWith, SHORT[4..]);
    FirstStep(s, EndsWith, SHORT[5..]);
    FirstStep(s, Contains, []);
  }

  predicate Found(s: string, operator: Operator) {
    IndexOfText(s, Symbol(operator)) >= 0
  }

  lemma FoundWhenShown(f: Filter, operator: Operator)
    requires Writable(f) && f.Compare?
    ensures Found(Print(f), operator) == Shows(f.operator, operator)
  {
    hide Writable, Print, Shows;
    SymbolAt(f, operator);
  }

  lemma FirstStep(s: string, a: Operator, rest: seq<Operator>)
    ensures FirstOf(s, [a] + rest) == if Found(s, a) then Some(a) else FirstOf(s, rest)
  {
    assert ([a] + rest)[1..] == rest;
  }

  lemma NoRange(f: Filter)
    requires Writable(f) && f.Compare?
    ensures RangeParts(Print(f)).None?
  {
    if f.operator != Equals {
      PrintedChars(f);
      assert IndexOf(Print(f), ':') < 0;
    }
  }

  lemma ComparisonReadsBack(f: Filter)
    requires Writable(f) && f.Compare?
    ensures ParseFilterExpression(Print(f)) == f
  {
    hide Trim, RangeParts, IndexOfText, OperatorOf, IsSymbol, Symbol, Print;
    PrintShows(f);
    NoRange(f);
    OperatorReadsBack(f);
    SymbolAt(f, f.operator);
    var s := Print(f);
    assert s == f.field + (Symbol(f.operator) + f.text);
    assert s[..|f.field|] == f.field && s[|f.field| + |Symbol(f.operator)|..] == f.text;
  }

  /** Every unambiguous filter reads back as itself. */
  lemma ReadsBack(f: Filter)
    requires Writable(f)
    ensures ParseFilterExpression(Print(f)) == f
  {
    hide *;
    if f.Range? {
      RangeReadsBack(f);
    } else {
      ComparisonReadsBack(f);
    }
  }

  /** Each symbol read as its operator, whatever the field and the text. */
  lemma SymbolsRead(field: string, text: string)
    requires field != "" && Clean(field) && Clean(text)
    ensures ParseFilterExpression(field + ">=" + text) == Compare(field, AtLeast, text)
    ensures ParseFilterExpression(field + "<=" + text) == Compare(field, AtMost, text)
    ensures text == "" || text[0] != '=' ==>
              && ParseFilterExpression(field + ">" + text) == Compare(field, Above, text)
              && ParseFilterExpression(field + "<" + text) == Compare(field, Below, text)
    ensures ParseFilterExpression(field + "!" + text) == Compare(field, Differs, text)
    ensures ParseFilterExpression(field + "^" + text) == Compare(field, StartsWith, text)
    ensures ParseFilterExpression(field + "$" + text) == Compare(field, EndsWith, text)
    ensures ParseFilterExpression(field + "~" + text) == Compare(field, Contains, text)
    ensures RangeParts(field + ":" + text).None? ==>
              ParseFilterExpression(field + ":" + text) == Compare(field, Equals, text)
  {
    hide Clean, RangeParts, ParseFilterExpression, Symbol;
    forall operator: Operator
      ensures Writable(Compare(field, operator, text)) ==>
                ParseFilterExpression(Print(Compare(field, operator, text))) == Compare(field, operator, text)
    {
      if Writable(Compare(field, operator, text)) {
        ReadsBack(Compare(field, operator, text));
      }
    }
  }

  // ---- any expression at all ----

  ghost predicate Lacks(s: string, t: string) {
    forall k: nat :: !OccursAt(s, t, k)
  }

  predicate Excludes(s: string, chars: string) {
    forall c :: c in chars ==> c !in s
  }

  /** A written range: two numerals around a dash after the first colon. */
  ghost predicate IsRange(expr: string, field: string, low: string, high: string) {
    field != "" && Excludes(field, ":><!^$~") && Number(low) && Number(high) && expr == field + ":" + low + "-" + high
  }

  predicate AllDigits(s: string) {
    s != "" && forall c :: c in s ==> c in "0123456789"
  }

  /** Digits, or digits, a point and digits. */
  ghost predicate Number(s: string) {
    AllDigits(s) || exists a, b :: AllDigits(a) && AllDigits(b) && s == a + "." + b
  }

  lemma DigitsExactly(s: string)
    ensures IsDigits(s) <==> AllDigits(s)
  {
    forall i | 0 <= i < |s| ensures '0' <= s[i] <= '9' <==> s[i] in "0123456789" {
      OneDigit(s[i]);
    }
    forall c | c in s ensures exists i :: 0 <= i < |s| && s[i] == c {
    }
  }

  lemma OneDigit(c: char)
    ensures '0' <= c <= '9' <==> c in "0123456789"
  {
    var digits := "0123456789";
    assert forall i: nat :: i < 10 ==> digits[i] as nat == '0' as nat + i;
    if '0' <= c <= '9' {
      assert digits[c as nat - '0' as nat] == c;
    }
  }

  lemma NumbersExactly(s: string)
    ensures IsNumeral(s) <==> Number(s)
  {
    hide IsDigits, AllDigits, IndexOf;
    DigitsExactly(s);
    var point := IndexOf(s, '.');
    if point >= 0 {
      PointedDigits(s);
      DigitsExactly(s[..point]);
      DigitsExactly(s[point + 1..]);
      assert s == s[..point] + "." + s[point + 1..];
    }
    forall a, b | AllDigits(a) && AllDigits(b) && s == a + "." + b ensures IsNumeral(s) {
      DigitsExactly(a);
      DigitsExactly(b);
      PointAfter(s, a, b);
    }
  }

  lemma PointedDigits(s: string)
    requires '.' in s
    ensures !IsDigits(s)
  {
  }

  lemma PointAfter(s: string, a: string, b: string)
    requires IsDigits(a) && s == a + "." + b
    ensures IndexOf(s, '.') == |a| && s[..|a|] == a && s[|a| + 1..] == b
  {
    hide IndexOf;
    assert s == a + ("." + b);
    assert forall k :: 0 <= k < |a| ==> s[k] == a[k];
    FirstIndex(s, '.', |a|);
  }

  lemma RangeShape(expr: string, field: string, low: string, high: string)
    ensures IsRange(expr, field, low, high)
       <==> && field != "" && !HasSymbol(field) && IsNumeral(low) && IsNumeral(high)
            && expr == field + (":" + (low + ("-" + high)))
  {
    hide IsNumeral, Number, HasSymbol, Excludes;
    NumbersExactly(low);
    NumbersExactly(high);
    assert field + (":" + (low + ("-" + high))) == field + ":" + low + "-" + high;
    SymbolsExactly(field);
  }

  lemma SymbolsExactly(s: string)
    ensures HasSymbol(s) <==> !Excludes(s, ":><!^$~")
  {
    forall i | 0 <= i < |s| ensures IsSymbol(s[i]) <==> s[i] in ":><!^$~" {
      SymbolList(s[i]);
    }
    forall c | c in ":><!^$~" && c in s ensures HasSymbol(s) {
      var i :| 0 <= i < |s| && s[i] == c;
    }
  }

  lemma SymbolList(c: char)
    ensures IsSymbol(c) <==> c in ":><!^$~"
  {
    var l := ":><!^$~";
    assert l[0] == ':' && l[1] == '>' && l[2] == '<' && l[3] == '!' && l[4] == '^' && l[5] == '$' && l[6] == '~';
  }

  lemma RangesExactly(expr: string, field: string, low: string, high: string)
    ensures IsRange(expr, field, low, high) ==> RangeParts(expr) == Some(Range(Trim(field), low, high))
    ensures RangeParts(expr).Some? ==>
              exists f, a, b :: IsRange(expr, f, a, b) && RangeParts(expr) == Some(Range(Trim(f), a, b))
  {
    hide Trim, IsRange, RangeParts;
    if IsRange(expr, field, low, high) {
      RangeFound(expr, field, low, high);
    }
    if RangeParts(expr).Some? {
      var f, a, b := RangeTaken(expr);
    }
  }

  lemma RangeFound(expr: string, field: string, low: string, high: string)
    requires IsRange(expr, field, low, high)
    ensures RangeParts(expr) == Some(Range(Trim(field), low, high))
  {
    hide Trim, IsNumeral, IndexOf, HasSymbol, IsRange;
    RangeShape(expr, field, low, high);
    RangeHead(field, low + ("-" + high));
    RangeTail(low, high);
  }

  lemma RangeTaken(expr: string) returns (field: string, low: string, high: string)
    requires RangeParts(expr).Some?
    ensures IsRange(expr, field, low, high) && RangeParts(expr) == Some(Range(Trim(field), low, high))
  {
    hide Trim, IsNumeral, IndexOf, HasSymbol, IsRange;
    var colon := IndexOf(expr, ':');
    var rest := expr[colon + 1..];
    var dash := IndexOf(rest, '-');
    CutAt(expr, ':');
    CutAt(rest, '-');
    field, low, high := expr[..colon], rest[..dash], rest[dash + 1..];
    RangeShape(expr, field, low, high);
  }

  lemma CutAt(s: string, c: char)
    ensures var i := IndexOf(s, c); i >= 0 ==> s == s[..i] + ([c] + s[i + 1..])
  {
    hide IndexOf;
  }

  /** A range holds no symbol but its colon. */
  lemma OtherSymbols(expr: string, k: nat)
    requires k < |expr| && IsSymbol(expr[k]) && expr[k] != ':'
    ensures RangeParts(expr).None?
  {
    hide Trim, IsNumeral, HasSymbol, RangeParts, IsRange;
    RangesExactly(expr, "", "", "");
    if RangeParts(expr).Some? {
      var f, a, b :| IsRange(expr, f, a, b) && RangeParts(expr) == Some(Range(Trim(f), a, b));
      RangeShape(expr, f, a, b);
      NumeralChars(a);
      NumeralChars(b);
      SymbolFree(f);
      SymbolPlace(expr, f, a, b, k);
    }
  }

  lemma SymbolFree(s: string)
    requires !HasSymbol(s)
    ensures forall i :: 0 <= i < |s| ==> !IsSymbol(s[i])
  {
  }

  lemma SymbolPlace(expr: string, f: string, a: string, b: string, k: nat)
    requires expr == f + (":" + (a + ("-" + b))) && k < |expr|
    requires forall c :: c in f ==> !IsSymbol(c)
    requires forall i :: 0 <= i < |a| ==> '0' <= a[i] <= '9' || a[i] == '.'
    requires forall i :: 0 <= i < |b| ==> '0' <= b[i] <= '9' || b[i] == '.'
    ensures IsSymbol(expr[k]) ==> expr[k] == ':'
  {
  }

  lemma SplitsAt(expr: string, head: string, symbol: string, text: string, operator: Operator)
    requires expr == head + symbol + text && Symbol(operator) == symbol && OperatorOf(expr) == operator
    requires RangeParts(expr).None? && forall k: nat :: k < |head| ==> !OccursAt(expr, symbol, k)
    ensures ParseFilterExpression(expr) == Compare(Trim(head), operator, Trim(text))
  {
    hide Trim, RangeParts, OperatorOf, Symbol;
    assert expr == head + (symbol + text);
    assert expr[|head|..|head| + |symbol|] == symbol;
    assert OccursAt(expr, symbol, |head|);
    assert expr[..|head|] == head && expr[|head| + |symbol|..] == text;
  }

  lemma SingleAt(expr: string, c: char)
    ensures c in expr <==> !Lacks(expr, [c])
    ensures (c in expr) <==> IndexOfText(expr, [c]) >= 0
  {
    if c in expr {
      var k :| 0 <= k < |expr| && expr[k] == c;
      assert expr[k..k + 1] == [c];
      assert OccursAt(expr, [c], k);
    }
    forall k: nat | OccursAt(expr, [c], k) ensures c in expr {
      assert expr[k..k + 1][0] == expr[k];
    }
  }

  /** The operator of an expression: the two-character symbols come first, then the others in order. */
  lemma OperatorExactly(expr: string)
    ensures OperatorOf(expr)
         == if !Lacks(expr, ">=") then AtLeast else if !Lacks(expr, "<=") then AtMost
            else if '>' in expr then Above else if '<' in expr then Below else if '!' in expr then Differs
            else if '^' in expr then StartsWith else if '$' in expr then EndsWith else if '~' in expr then Contains
            else Equals
  {
    hide IndexOfText, OccursAt;
    FirstStep(expr, AtLeast, [AtMost]);
    FirstStep(expr, AtMost, []);
    SingleAt(expr, '>');
    FirstStep(expr, Above, SHORT[1..]);
    SingleAt(expr, '<');
    FirstStep(expr, Below, SHORT[2..]);
    SingleAt(expr, '!');
    FirstStep(expr, Differs, SHORT[3..]);
    SingleAt(expr, '^');
    FirstStep(expr, StartsWith, SHORT[4..]);
    SingleAt(expr, '$');
    FirstStep(expr, EndsWith, SHORT[5..]);
    SingleAt(expr, '~');
    FirstStep(expr, Contains, []);
  }

  lemma SplitsAtChar(expr: string, head: string, c: char, text: string, operator: Operator)
    requires expr == head + [c] + text && c !in head && Symbol(operator) == [c] && OperatorOf(expr) == operator
    requires c == ':' ==> RangeParts(expr).None?
    ensures ParseFilterExpression(expr) == Compare(Trim(head), operator, Trim(text))
  {
    hide Trim, RangeParts, OperatorOf, ParseFilterExpression;
    assert expr[|head|] == c;
    if c != ':' {
      OtherSymbols(expr, |head|);
    }
    forall k: nat | k < |head| ensures !OccursAt(expr, [c], k) {
      assert expr[k] == head[k] && expr[k..k + 1] == [expr[k]];
    }
    SplitsAt(expr, head, [c], text, operator);
  }

  lemma SplitsAtPair(expr: string, head: string, symbol: string, text: string, operator: Operator)
    requires expr == head + symbol + text && Symbol(operator) == symbol && |symbol| == 2 && OperatorOf(expr) == operator
    requires forall k: nat :: k < |head| ==> !OccursAt(expr, symbol, k)
    ensures ParseFilterExpression(expr) == Compare(Trim(head), operator, Trim(text))
  {
    hide Trim, RangeParts, OperatorOf, ParseFilterExpression;
    assert expr[|head|] == symbol[0];
    OtherSymbols(expr, |head|);
    SplitsAt(expr, head, symbol, text, operator);
  }

  lemma ReadsPairs(expr: string, head: string, text: string)
    ensures expr == head + ">=" + text && (forall k: nat :: k < |head| ==> !OccursAt(expr, ">=", k)) ==>
              ParseFilterExpression(expr) == Compare(Trim(head), AtLeast, Trim(text))
    ensures expr == head + "<=" + text && (forall k: nat :: k < |head| ==> !OccursAt(expr, "<=", k)) && Lacks(expr, ">=") ==>
              ParseFilterExpression(expr) == Compare(Trim(head), AtMost, Trim(text))
  {
    hide Trim, OperatorOf, ParseFilterExpression, OccursAt;
    OperatorExactly(expr);
    if expr == head + ">=" + text && forall k: nat :: k < |head| ==> !OccursAt(expr, ">=", k) {
      PairAt(head, ">=", text);
      SplitsAtPair(expr, head, ">=", text, AtLeast);
    }
    if expr == head + "<=" + text && (forall k: nat :: k < |head| ==> !OccursAt(expr, "<=", k)) && Lacks(expr, ">=") {
      PairAt(head, "<=", text);
      SplitsAtPair(expr, head, "<=", text, AtMost);
    }
  }

  lemma PairAt(head: string, symbol: string, text: string)
    ensures !Lacks(head + symbol + text, symbol)
  {
    var s := head + (symbol + text);
    assert s == head + symbol + text;
    assert s[|head|..|head| + |symbol|] == symbol;
    assert OccursAt(s, symbol, |head|);
  }

  lemma ReadsChars(expr: string, head: string, text: string)
    ensures Lacks(expr, ">=") && Lacks(expr, "<=") ==>
              && (expr == head + ">" + text && '>' !in head ==>
                    ParseFilterExpression(expr) == Compare(Trim(head), Above, Trim(text)))
              && (expr == head + "<" + text && '<' !in head && Excludes(expr, ">") ==>
                    ParseFilterExpression(expr) == Compare(Trim(head), Below, Trim(text)))
              && (expr == head + "!" + text && '!' !in head && Excludes(expr, "><") ==>
                    ParseFilterExpression(expr) == Compare(Trim(head), Differs, Trim(text)))
              && (expr == head + "^" + text && '^' !in head && Excludes(expr, "><!") ==>
                    ParseFilterExpression(expr) == Compare(Trim(head), StartsWith, Trim(text)))
              && (expr == head + "$" + text && '$' !in head && Excludes(expr, "><!^") ==>
                    ParseFilterExpression(expr) == Compare(Trim(head), EndsWith, Trim(text)))
              && (expr == head + "~" + text && '~' !in head && Excludes(expr, "><!^$") ==>
                    ParseFilterExpression(expr) == Compare(Trim(head), Contains, Trim(text)))
  {
    hide Trim, OperatorOf, ParseFilterExpression, OccursAt, Lacks;
    OperatorExactly(expr);
    if Lacks(expr, ">=") && Lacks(expr, "<=") {
      if expr == head + ">" + text && '>' !in head {
        SplitsAtChar(expr, head, '>', text, Above);
      }
      if expr == head + "<" + text && '<' !in head && Excludes(expr, ">") {
        SplitsAtChar(expr, head, '<', text, Below);
      }
      if expr == head + "!" + text && '!' !in head && Excludes(expr, "><") {
        SplitsAtChar(expr, head, '!', text, Differs);
      }
      if expr == head + "^" + text && '^' !in head && Excludes(expr, "><!") {
        SplitsAtChar(expr, head, '^', text, StartsWith);
      }
      if expr == head + "$" + text && '$' !in head && Excludes(expr, "><!^") {
        SplitsAtChar(expr, head, '$', text, EndsWith);
      }
      if expr == head + "~" + text && '~' !in head && Excludes(expr, "><!^$") {
        SplitsAtChar(expr, head, '~', text, Contains);
      }
    }
  }

  lemma ReadsDefault(expr: string, head: string, text: string)
    ensures Excludes(expr, "><!^$~") && RangeParts(expr).None? ==>
              && (expr == head + ":" + text && ':' !in head ==>
                    ParseFilterExpression(expr) == Compare(Trim(head), Equals, Trim(text)))
              && (':' !in expr ==> ParseFilterExpression(expr) == Compare(Trim(expr), Equals, ""))
  {
    hide Trim, RangeParts, OperatorOf, ParseFilterExpression;
    OperatorExactly(expr);
    if Excludes(expr, "><!^$~") && RangeParts(expr).None? {
      assert forall c :: c in "><!^$~" ==> c !in expr;
      NoPair(expr);
      if expr == head + ":" + text && ':' !in head {
        SplitsAtChar(expr, head, ':', text, Equals);
      }
      if ':' !in expr {
        ReadsBare(expr);
      }
    }
  }

  lemma ReadsBare(expr: string)
    requires RangeParts(expr).None? && OperatorOf(expr) == Equals && ':' !in expr
    ensures ParseFilterExpression(expr) == Compare(Trim(expr), Equals, "")
  {
    hide Trim, RangeParts, OperatorOf;
    SingleAt(expr, ':');
  }

  lemma NoPair(expr: string)
    requires '>' !in expr && '<' !in expr
    ensures Lacks(expr, ">=") && Lacks(expr, "<=")
  {
    forall k: nat ensures !OccursAt(expr, ">=", k) && !OccursAt(expr, "<=", k) {
      if k + 2 <= |expr| {
        assert expr[k..k + 2][0] == expr[k];
      }
    }
  }

  /** What any expression reads as: it is cut at the first of the symbols above that occurs, and both
      sides are trimmed; one with no symbol compares with the empty text. */
  lemma ReadsExactly(expr: string, head: string, text: string)
    ensures expr == head + ">=" + text && (forall k: nat :: k < |head| ==> !OccursAt(expr, ">=", k)) ==>
              ParseFilterExpression(expr) == Compare(Trim(head), AtLeast, Trim(text))
    ensures expr == head + "<=" + text && (forall k: nat :: k < |head| ==> !OccursAt(expr, "<=", k)) && Lacks(expr, ">=") ==>
              ParseFilterExpression(expr) == Compare(Trim(head), AtMost, Trim(text))
    ensures Lacks(expr, ">=") && Lacks(expr, "<=") ==>
              && (expr == head + ">" + text && '>' !in head ==>
                    ParseFilterExpression(expr) == Compare(Trim(head), Above, Trim(text)))
              && (expr == head + "<" + text && '<' !in head && Excludes(expr, ">") ==>
                    ParseFilterExpression(expr) == Compare(Trim(head), Below, Trim(text)))
              && (expr == head + "!" + text && '!' !in head && Excludes(expr, "><") ==>
                    ParseFilterExpression(expr) == Compare(Trim(head), Differs, Trim(text)))
              && (expr == head + "^" + text && '^' !in head && Excludes(expr, "><!") ==>
                    ParseFilterExpression(expr) == Compare(Trim(head), StartsWith, Trim(text)))
              && (expr == head + "$" + text && '$' !in head && Excludes(expr, "><!^") ==>
                    ParseFilterExpression(expr) == Compare(Trim(head), EndsWith, Trim(text)))
              && (expr == head + "~" + text && '~' !in head && Excludes(expr, "><!^$") ==>
                    ParseFilterExpression(expr) == Compare(Trim(head), Contains, Trim(text)))
    ensures Excludes(expr, "><!^$~") && RangeParts(expr).None? ==>
              && (expr == head + ":" + text && ':' !in head ==>
                    ParseFilterExpression(expr) == Compare(Trim(head), Equals, Trim(text)))
              && (':' !in expr ==> ParseFilterExpression(expr) == Compare(Trim(expr), Equals, ""))
  {
    hide Trim, RangeParts, OperatorOf, ParseFilterExpression, OccursAt;
    OperatorExactly(expr);
    ReadsPairs(expr, head, text);
    ReadsChars(expr, head, text);
    ReadsDefault(expr, head, text);
  }

}
