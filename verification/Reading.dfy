/** How the text of a grammar file reads, as functions from what is left of the text.  */
module Reading {
  import RuleTable
  import opened Syntax

  datatype Fault =
    | NoRuleName | NoParameterName | NoArrow | NoExpression | NoReference
    | OpenLiteral | OpenEscape | OpenClass | Expected(what: char)
    | PastEnd   // a backslash ends the file inside a character class, and the cursor steps over the end

  datatype Read<+T> = Done(value: T, rest: string) | Bad(fault: Fault)

  predicate Starts(s: string, c: char) {
    s != [] && s[0] == c
  }

  // ---------------------------------------------------------------------------------------------
  // Characters, space and names

  predicate White(c: char) {
    c == ' ' || c == '\t' || c == '\n' || c == '\r' || c == '\U{000C}'
  }

  predicate NameChar(c: char) {
    'a' <= c <= 'z' || 'A' <= c <= 'Z' || '0' <= c <= '9' || c == '_'
  }

  /** What is left of the line.  */
  function Line(s: string): (r: string)
    ensures |r| <= |s|
  {
    if s == [] || s[0] == '\n' then s else Line(s[1..])
  }

  /** Skips space and comments.  */
  function Space(s: string): (r: string)
    ensures |r| <= |s|
    ensures r != [] ==> !White(r[0]) && r[0] != '#'
    decreases |s|
  {
    if s == [] then s
    else if White(s[0]) then Space(s[1..])
    else if s[0] == '#' then Space(Line(s[1..]))
    else s
  }

  function NameRun(s: string): (n: nat)
    ensures n <= |s|
  {
    if s != [] && NameChar(s[0]) then 1 + NameRun(s[1..]) else 0
  }

  /** How long the name at the front is, or zero when there is none: a lone percent sign is not a name.  */
  function NameLength(s: string): (n: nat)
    ensures n <= |s|
  {
    if Starts(s, '%') then (if NameRun(s[1..]) == 0 then 0 else 1 + NameRun(s[1..]))
    else NameRun(s)
  }

  predicate Arrow(s: string) {
    |s| >= 2 && s[0] == '<' && s[1] == '-'
  }

  /** Whether a rule starts here: a name, perhaps a parameter, then an arrow.  */
  predicate AtRuleStart(s: string) {
    NameLength(s) > 0 && Heads(s[NameLength(s)..])
  }

  /** What follows a name makes it the head of a rule.  */
  predicate Heads(s: string) {
    var t := Space(s);
    if Starts(t, '(') then
      var u := Space(t[1..]);
      NameLength(u) > 0 &&
      var v := Space(u[NameLength(u)..]);
      Starts(v, ')') && Arrow(Space(v[1..]))
    else Arrow(t)
  }

  // ---------------------------------------------------------------------------------------------
  // Literals and classes

  /** The rest of a literal, after its opening quote.  */
  function Text(s: string): (r: Read<string>)
    ensures r.Done? ==> |r.rest| < |s|
  {
    if s == [] then Bad(OpenLiteral)
    else if s[0] == '\'' then Done("", s[1..])
    else if s[0] == '\\' && |s| == 1 then Bad(OpenEscape)
    else
      var skip := if s[0] == '\\' then 1 else 0;
      match Text(s[skip + 1..])
      case Bad(fault) => Bad(fault)
      case Done(text, rest) => Done([s[skip]] + text, rest)
  }

  /** The rest of a character class, after its opening bracket.  */
  function ClassBody(s: string): (r: Read<string>)
    ensures r.Done? ==> |r.rest| < |s|
  {
    if s == [] then Bad(OpenClass)
    else if s[0] == ']' then Done("]", s[1..])
    else
      var step := if s[0] == '\\' then 2 else 1;
      if step > |s| then Bad(PastEnd)
      else
        match ClassBody(s[step..])
        case Bad(fault) => Bad(fault)
        case Done(text, rest) => Done(s[..step] + text, rest)
  }

  /** A character class and its flag, kept as they are written.  */
  function ClassText(s: string): (r: Read<string>)
    requires Starts(s, '[')
    ensures r.Done? ==> |r.rest| < |s|
  {
    match ClassBody(s[1..])
    case Bad(fault) => Bad(fault)
    case Done(text, rest) =>
      if Starts(rest, 'i') then Done("[" + text + "i", rest[1..]) else Done("[" + text, rest)
  }

  // ---------------------------------------------------------------------------------------------
  // Expressions

  /** After an opening bracket: a choice and its closing bracket.  */
  function Enclosed(s: string, close: char): (r: Read<Expr>)
    ensures r.Done? ==> |r.rest| < |s|
    decreases |s|, 7
  {
    match Choices(s)
    case Bad(fault) => Bad(fault)
    case Done(e, rest) =>
      if Starts(Space(rest), close) then Done(e, Space(rest)[1..]) else Bad(Expected(close))
  }

  function Primary(s: string): (r: Read<Expr>)
    ensures r.Done? ==> |r.rest| < |s|
    decreases |s|, 1
  {
    if Starts(s, '\'') then
      match Text(s[1..])
      case Bad(fault) => Bad(fault)
      case Done(text, rest) => Done(Literal(text), rest)
    else if Starts(s, '[') then
      match ClassText(s)
      case Bad(fault) => Bad(fault)
      case Done(text, rest) => Done(CharClass(text), rest)
    else if Starts(s, '(') then Enclosed(s[1..], ')')
    else if Starts(s, '<') then
      match Enclosed(s[1..], '>')
      case Bad(fault) => Bad(fault)
      case Done(e, rest) => Done(Capture(e), rest)
    else
      var n := NameLength(s);
      if n == 0 then Bad(NoReference)
      else if Starts(s[n..], '(') then
        match Enclosed(s[n + 1..], ')')
        case Bad(fault) => Bad(fault)
        case Done(e, rest) => Done(Call(s[..n], e), rest)
      else Done(Reference(s[..n]), s[n..])
  }

  /** An element with the operator that touches it.  */
  function Suffixed(s: string): (r: Read<Expr>)
    ensures r.Done? ==> |r.rest| < |s|
    decreases |s|, 2
  {
    match Primary(s)
    case Bad(fault) => Bad(fault)
    case Done(e, rest) =>
      if Starts(rest, '?') then Done(Optional(e), rest[1..])
      else if Starts(rest, '+') then Done(Repeat(e), rest[1..])
      else if Starts(rest, '*') then Done(Optional(Repeat(e)), rest[1..])
      else Done(e, rest)
  }

  function Prefixed(s: string): (r: Read<Expr>)
    ensures r.Done? ==> |r.rest| < |s|
    decreases |s|, 3
  {
    if Starts(s, '!') then
      match Suffixed(Space(s[1..]))
      case Bad(fault) => Bad(fault)
      case Done(e, rest) => Done(Not(e), rest)
    else Suffixed(s)
  }

  /** Whether a sequence ends here.  */
  predicate Stops(s: string) {
    s == [] || AtRuleStart(s) || s[0] == '/' || s[0] == ')' || s[0] == '>'
  }

  /** The elements up to where the sequence ends.  */
  function Items(s: string): (r: Read<seq<Expr>>)
    ensures r.Done? ==> |r.rest| <= |s| && (r.value != [] ==> |r.rest| < |s|)
    decreases |s|, 4
  {
    var t := Space(s);
    if Stops(t) then Done([], t)
    else
      match Prefixed(t)
      case Bad(fault) => Bad(fault)
      case Done(e, rest) =>
        match Items(rest)
        case Bad(fault) => Bad(fault)
        case Done(more, end) => Done([e] + more, end)
  }

  /** One element stands for itself.  */
  function SequenceOf(items: seq<Expr>): Expr
    requires items != []
  {
    if |items| == 1 then items[0] else Sequence(items)
  }

  function ChoiceOf(branches: seq<Expr>): Expr
    requires branches != []
  {
    if |branches| == 1 then branches[0] else Choice(branches)
  }

  function Sequences(s: string): (r: Read<Expr>)
    ensures r.Done? ==> |r.rest| < |s|
    decreases |s|, 5
  {
    match Items(s)
    case Bad(fault) => Bad(fault)
    case Done(items, rest) => if items == [] then Bad(NoExpression) else Done(SequenceOf(items), rest)
  }

  /** The branches after the first.  */
  function Branches(s: string): (r: Read<seq<Expr>>)
    ensures r.Done? ==> |r.rest| <= |s|
    decreases |s|, 4
  {
    var t := Space(s);
    if !Starts(t, '/') then Done([], t)
    else
      match Sequences(t[1..])
      case Bad(fault) => Bad(fault)
      case Done(e, rest) =>
        match Branches(rest)
        case Bad(fault) => Bad(fault)
        case Done(more, end) => Done([e] + more, end)
  }

  function Choices(s: string): (r: Read<Expr>)
    ensures r.Done? ==> |r.rest| < |s|
    decreases |s|, 6
  {
    match Sequences(s)
    case Bad(fault) => Bad(fault)
    case Done(e, rest) =>
      match Branches(rest)
      case Bad(fault) => Bad(fault)
      case Done(more, end) => Done(ChoiceOf([e] + more), end)
  }

  // ---------------------------------------------------------------------------------------------
  // Rules and files

  /** A parameter in its parentheses, if there is one, and the space after it.  */
  function Parameter(s: string): (r: Read<RuleTable.Option<string>>)
    ensures r.Done? ==> |r.rest| <= |s|
  {
    if !Starts(s, '(') then Done(RuleTable.None, s)
    else
      var t := Space(s[1..]);
      var n := NameLength(t);
      if n == 0 then Bad(NoParameterName)
      else
        var u := Space(t[n..]);
        if Starts(u, ')') then Done(RuleTable.Some(t[..n]), Space(u[1..])) else Bad(Expected(')'))
  }

  function RuleText(s: string): (r: Read<Rule>)
    ensures r.Done? ==> |r.rest| < |s|
  {
    var n := NameLength(s);
    if n == 0 then Bad(NoRuleName)
    else
      match Parameter(Space(s[n..]))
      case Bad(fault) => Bad(fault)
      case Done(parameter, t) =>
        if !Arrow(t) then Bad(NoArrow)
        else
          match Choices(t[2..])
          case Bad(fault) => Bad(fault)
          case Done(body, rest) => Done(Rule.Rule(s[..n], parameter, body), rest)
  }

  /** The rules of a file.  */
  function File(s: string): (r: Read<seq<Rule>>)
    decreases |s|
  {
    var t := Space(s);
    if t == [] then Done([], [])
    else
      match RuleText(t)
      case Bad(fault) => Bad(fault)
      case Done(rule, rest) =>
        match File(rest)
        case Bad(fault) => Bad(fault)
        case Done(more, end) => Done([rule] + more, end)
  }

  // ---------------------------------------------------------------------------------------------
  // One step of a list, for loops and inductions

  /** Adds what a loop has gathered to what it still has to gather.  */
  function Prepend<T>(done: seq<T>, more: Read<seq<T>>): Read<seq<T>> {
    match more
    case Done(items, rest) => Done(done + items, rest)
    case Bad(fault) => Bad(fault)
  }

  lemma PrependNothing<T>(more: Read<seq<T>>)
    ensures Prepend([], more) == more
  {
    assert more.Done? ==> [] + more.value == more.value;
  }

  lemma PrependTwice<T>(done: seq<T>, next: seq<T>, more: Read<seq<T>>)
    ensures Prepend(done, Prepend(next, more)) == Prepend(done + next, more)
  {
    assert more.Done? ==> done + (next + more.value) == done + next + more.value;
  }

  lemma PrependLast<T>(done: seq<T>, rest: string)
    ensures Prepend(done, Done([], rest)) == Done(done, rest)
  {
    assert done + [] == done;
  }

  lemma TextUnfolds(s: string)
    ensures s == [] ==> Text(s) == Bad(OpenLiteral)
    ensures Starts(s, '\'') ==> Text(s) == Done([], s[1..])
    ensures Starts(s, '\\') && |s| == 1 ==> Text(s) == Bad(OpenEscape)
    ensures Starts(s, '\\') && |s| > 1 ==> Text(s) == Prepend([s[1]], Text(s[2..]))
    ensures s != [] && s[0] != '\'' && s[0] != '\\' ==> Text(s) == Prepend([s[0]], Text(s[1..]))
  {}

  lemma ClassUnfolds(s: string)
    ensures s == [] ==> ClassBody(s) == Bad(OpenClass)
    ensures Starts(s, ']') ==> ClassBody(s) == Done("]", s[1..])
    ensures Starts(s, '\\') && |s| == 1 ==> ClassBody(s) == Bad(PastEnd)
    ensures Starts(s, '\\') && |s| > 1 ==> ClassBody(s) == Prepend(s[..2], ClassBody(s[2..]))
    ensures s != [] && s[0] != ']' && s[0] != '\\' ==> ClassBody(s) == Prepend(s[..1], ClassBody(s[1..]))
  {}
}
