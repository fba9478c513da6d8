/** What a grammar means before anything is compiled: which rule a name stands for, what a body is
    once templates are substituted, and the parsing expression semantics of the result.  */
module Meaning {
  import opened RuleTable
  import opened Syntax

  datatype Failure =
    | EmptyLiteral   // a literal that matches nothing
    | UnknownWord    // a word that is not in the keyword table
    | Unreached      // a reference that did not survive reachability
    | NoTemplate     // a call of a name that no rule has
    | NoParameter    // a call of something that takes no parameter
    | NotOrdinary    // a call of something overridden
    | Unsupported    // a lookahead, a capture or a character class in a reachable position
    | Overflow       // calls nested deeper than the native stack allows

  datatype Result<+T> = Ok(value: T) | Err(error: Failure)

  // ---------------------------------------------------------------------------------------------
  // Names

  /** What a rule name stands for.  */
  datatype Resolved = Body(body: Expr) | Override(node: Node) | Class(class_: nat)

  /** One line of the override list.  */
  datatype Overriding = Overriding(name: string, matcher: string, suggestion: string)

  const SUGGESTIONS: seq<string> := [
    "SUGGEST_VARIABLE", "SUGGEST_CATALOG_NAME", "SUGGEST_SCHEMA_NAME", "SUGGEST_TABLE_NAME",
    "SUGGEST_COLUMN_NAME", "SUGGEST_SCALAR_FUNCTION_NAME", "SUGGEST_TABLE_FUNCTION_NAME",
    "SUGGEST_TYPE_NAME", "SUGGEST_PRAGMA_NAME", "SUGGEST_SETTING_NAME", "SUGGEST_FILE_NAME"]

  const CLASS_RULES: seq<string> := [
    "ReservedKeyword", "UnreservedKeyword", "ColumnNameKeyword", "FuncNameKeyword", "TypeNameKeyword"]

  /** Where `text` first appears in `list`.  */
  function Find(list: seq<string>, text: string): (at: Option<nat>)
    ensures at.Some? ==> at.value < |list| && list[at.value] == text
    ensures at.None? ==> text !in list
  {
    if list == [] then None
    else if list[0] == text then Some(0)
    else
      match Find(list[1..], text)
      case Some(i) => Some(i + 1)
      case None => None
  }

  /** Nodes that stand on their own: no index into anything.  */
  predicate Standalone(node: Node) {
    match node
    case Identifier(suggestion, _) => suggestion < 11
    case KeywordClass(_) => true
    case Number => true
    case String => true
    case Operator => true
    case EndOfInput => true
    case _ => false
  }

  /** The terminal an override line describes.  */
  function Terminal(o: Overriding): (node: Option<Node>)
    ensures node.Some? ==> Standalone(node.value)
  {
    if o.matcher == "IdentifierMatcher" || o.matcher == "ReservedIdentifierMatcher" then
      match Find(SUGGESTIONS, o.suggestion)
      case Some(code) => Some(Node.Identifier(code, o.matcher == "ReservedIdentifierMatcher"))
      case None => None
    else if o.matcher == "NumberLiteralMatcher" then Some(Node.Number)
    else if o.matcher == "StringLiteralMatcher" then Some(Node.String)
    else if o.matcher == "OperatorMatcher" then Some(Node.Operator)
    else if o.matcher == "EndOfInputMatcher" then Some(Node.EndOfInput)
    else None
  }

  const END_RULE: string := "EndOfInput"

  /** Overrides beat the end of input matcher, which beats keyword classes, which beat bodies.  */
  function Resolution(bodies: map<string, Rule>, overriding: map<string, Node>, classRules: seq<string>, name: string): (r: Option<Resolved>) {
    if name in overriding then Some(Override(overriding[name]))
    else if name == END_RULE then Some(Override(Node.EndOfInput))
    else if name in classRules then Some(Class(Find(classRules, name).value))
    else if name in bodies then Some(Body(bodies[name].body))
    else None
  }

  // ---------------------------------------------------------------------------------------------
  // Bodies with templates substituted

  /** A body once every name is settled: a word or symbol literal, a terminal, a rule, or a
      combination.  */
  datatype Form =
    | Leaf(node: Node)
    | Word(text: string)
    | Symbol(text: string)
    | Ref(name: string)
    | Seq(items: seq<Form>)
    | Alt(items: seq<Form>)
    | Opt(inner: Form)
    | Rep(inner: Form)

  predicate IsLetter(c: char) {
    'a' <= c <= 'z' || 'A' <= c <= 'Z'
  }

  predicate IsWord(text: string) {
    forall i :: 0 <= i < |text| ==> IsLetter(text[i]) || text[i] == '_'
  }

  function LowerChar(c: char): (r: char) {
    if 'A' <= c <= 'Z' then c - 'A' + 'a' else c
  }

  function Lower(text: string): (r: string)
    ensures |r| == |text|
  {
    seq(|text|, i requires 0 <= i < |text| => LowerChar(text[i]))
  }

  /** What bodies are expanded against: the templates, which of them are ordinary rules, the names
      that survived reachability, and the keyword table's words.  */
  datatype Env = Env(
    bodies: map<string, Rule>,
    resolved: map<string, Resolved>,
    reached: set<string>,
    words: set<string>)

  function ExpandLiteral(env: Env, text: string): (r: Result<Form>) {
    if text == "" then Err(EmptyLiteral)
    else if IsWord(text) then
      if Lower(text) in env.words then Ok(Form.Word(Lower(text))) else Err(UnknownWord)
    else Ok(Form.Symbol(text))
  }

  /** The body `e` with the parameters in `bound` standing for what they are bound to and every call
      replaced by its template, calls nesting at most `limit` deep.  */
  function Expand(env: Env, e: Expr, bound: map<string, Form>, limit: nat): (r: Result<Form>)
    decreases limit, e, 1
  {
    match e
    case Literal(text) => ExpandLiteral(env, text)
    case Reference(name) =>
      if name in bound then Ok(bound[name])
      else if name in env.reached then Ok(Ref(name))
      else Err(Unreached)
    case Call(name, argument) =>
      if name !in env.bodies then Err(NoTemplate)
      else if env.bodies[name].parameter.None? then Err(NoParameter)
      else
        var form := Expand(env, argument, bound, limit);
        if form.Err? then form
        else if name !in env.resolved || !env.resolved[name].Body? then Err(NotOrdinary)
        else if limit == 0 then Err(Overflow)
        else
          Expand(env, env.resolved[name].body, map[env.bodies[name].parameter.value := form.value], limit - 1)
    case Sequence(items) =>
      (match ExpandAll(env, items, bound, limit)
       case Ok(forms) => Ok(Seq(forms))
       case Err(error) => Err(error))
    case Choice(items) =>
      (match ExpandAll(env, items, bound, limit)
       case Ok(forms) => Ok(Alt(forms))
       case Err(error) => Err(error))
    case Optional(inner) =>
      (match Expand(env, inner, bound, limit)
       case Ok(form) => Ok(Opt(form))
       case Err(error) => Err(error))
    case Repeat(inner) =>
      (match Expand(env, inner, bound, limit)
       case Ok(form) => Ok(Rep(form))
       case Err(error) => Err(error))
    case _ => Err(Unsupported)
  }

  function ExpandAll(env: Env, items: seq<Expr>, bound: map<string, Form>, limit: nat): (r: Result<seq<Form>>)
    ensures r.Ok? ==> |r.value| == |items|
    decreases limit, items, 0
  {
    if items == [] then Ok([])
    else
      match Expand(env, items[0], bound, limit)
      case Err(error) => Err(error)
      case Ok(first) =>
        match ExpandAll(env, items[1..], bound, limit)
        case Err(error) => Err(error)
        case Ok(rest) => Ok([first] + rest)
  }

  /** What a name means.  */
  function RuleForm(env: Env, name: string, limit: nat): (r: Result<Form>)
    requires name in env.resolved
  {
    match env.resolved[name]
    case Override(node) => Ok(Leaf(node))
    case Class(k) => Ok(Leaf(KeywordClass({k})))
    case Body(body) => Expand(env, body, map[], limit)
  }

  // ---------------------------------------------------------------------------------------------
  // Parsing expression semantics of a grammar

  /** A match of the rule `name`.  */
  datatype Derivation = Derivation(name: string, start: nat, end: nat, kids: seq<Derivation>)

  datatype Finding = Miss | Hit(end: nat, derivations: seq<Derivation>)

  /** The forms of the rules, and the keyword table the tokens refer to.  */
  datatype Grammar = Grammar(forms: map<string, Form>, keywords: seq<RuleTable.Word>, tokens: seq<Token>)

  function Ahead(derivations: seq<Derivation>, o: Option<Finding>): (r: Option<Finding>) {
    match o
    case Some(Hit(end, rest)) => Some(Hit(end, derivations + rest))
    case _ => o
  }

  predicate Onwards(g: Grammar, pos: nat, r: Option<Finding>) {
    r.Some? && r.value.Hit? ==> pos <= r.value.end <= |g.tokens|
  }

  /** Whether a word of a keyword class may stand as a name in a position.  */
  predicate MayName(class_: string, position: string) {
    var function_ := position == "SUGGEST_SCALAR_FUNCTION_NAME" || position == "SUGGEST_TABLE_FUNCTION_NAME";
    var type_ := position == "SUGGEST_TYPE_NAME";
    || class_ == "UnreservedKeyword"
    || (class_ == "TypeNameKeyword" && (type_ || function_))
    || (class_ == "FuncNameKeyword" && function_)
    || (class_ == "ColumnNameKeyword" && !type_ && !function_)
  }

  /** The token is a keyword one of whose classes may stand in the position.  */
  predicate MayBeName(keywords: seq<RuleTable.Word>, t: Token, position: string) {
    t.keyword < |keywords| &&
    exists k :: 0 <= k < |CLASS_RULES| && k in keywords[t.keyword].classes && MayName(CLASS_RULES[k], position)
  }

  predicate StartsQuoted(t: Token) {
    t.text != [] && t.text[0] == '\''
  }

  /** Whether a token is a name in a position.  Quoted names and words in no class always are, keywords as
      their classes allow, and plain strings where tables and files are named.  A reserved position takes
      any keyword.  */
  predicate IsNameIn(keywords: seq<RuleTable.Word>, t: Token, position: string, reserved: bool) {
    || t.kind == Kind.QuotedIdentifier
    || t.kind == Kind.Identifier
    || (t.kind == Kind.Keyword && (reserved || MayBeName(keywords, t, position)))
    || (t.kind == Kind.String && StartsQuoted(t) && (position == "SUGGEST_TABLE_NAME" || position == "SUGGEST_FILE_NAME"))
  }

  /** The operators that rules spell out: arrows, comparisons and the pattern family, which is one or two
      tildes with a bang before or a star after, and three tildes.  */
  predicate IsSpelledOut(text: string) {
    || text == "->" || text == "->>"
    || text == "<=" || text == ">=" || text == "!=" || text == "==" || text == "<>"
    || text == "~~~" || IsPattern(text)
  }

  predicate IsPattern(text: string) {
    IsTildes(if text != [] && text[0] == '!' then text[1..] else text)
  }

  predicate IsTildes(text: string) {
    var bare := if text != [] && text[|text| - 1] == '*' then text[..|text| - 1] else text;
    bare == "~" || bare == "~~"
  }

  /** An operator that no rule spells: two or more operator characters.  */
  predicate IsUserOperator(text: string) {
    && |text| >= 2 && !IsSpelledOut(text)
    && forall i :: 0 <= i < |text| ==>
         text[i] in {'+', '-', '*', '/', '%', '^', '<', '>', '=', '~', '!', '@', '&', '|'}
  }

  /** Whether a terminal of a grammar takes a token.  */
  predicate Takes(keywords: seq<RuleTable.Word>, node: Node, t: Token)
    requires Standalone(node)
  {
    match node
    case Identifier(code, reserved) => IsNameIn(keywords, t, SUGGESTIONS[code], reserved)
    case KeywordClass(mask) =>
      t.kind == Kind.Keyword && t.keyword < |keywords| && exists k :: k in mask && k in keywords[t.keyword].classes
    case Number => t.kind == Kind.Number && t.text != "."
    case String => t.kind == Kind.String
    case Operator => t.kind == Kind.Operator && IsUserOperator(t.text)
    case EndOfInput => t.kind == Kind.EndOfInput
  }

  /** How many plain strings carry on the one before them, each on a line of its own.  */
  function CarryOn(tokens: seq<Token>): (count: nat)
    ensures count <= |tokens|
  {
    if tokens != [] && tokens[0].kind == Kind.String && StartsQuoted(tokens[0])
       && tokens[0].newline && !tokens[0].blockComment
    then 1 + CarryOn(tokens[1..])
    else 0
  }

  /** Where a terminal of a grammar matches to.  */
  function LeafEnd(keywords: seq<RuleTable.Word>, tokens: seq<Token>, node: Node, pos: nat): (end: Option<nat>)
    requires pos <= |tokens| && Standalone(node)
    ensures end.Some? ==> pos < end.value <= |tokens|
  {
    if pos == |tokens| || !Takes(keywords, node, tokens[pos]) then None
    else if node.String? && StartsQuoted(tokens[pos]) then Some(pos + 1 + CarryOn(tokens[pos + 1..]))
    else Some(pos + 1)
  }

  /** A literal matches one token: a word by the word it spells, a symbol by its text.  */
  function EvalToken(g: Grammar, pos: nat, matches: bool): (r: Finding) {
    if matches then Hit(pos + 1, []) else Miss
  }

  function Eval(g: Grammar, f: Form, pos: nat, fuel: nat): (r: Option<Finding>)
    requires pos <= |g.tokens|
    ensures Onwards(g, pos, r)
    decreases fuel, 3, 0
  {
    if fuel == 0 then None
    else
      match f
      case Leaf(node) =>
        if !Standalone(node) then Some(Miss)
        else
          (match LeafEnd(g.keywords, g.tokens, node, pos)
           case Some(end) => Some(Hit(end, []))
           case None => Some(Miss))
      case Word(text) =>
        Some(EvalToken(g, pos, pos < |g.tokens| && g.tokens[pos].keyword < |g.keywords|
                               && g.keywords[g.tokens[pos].keyword].text == text))
      case Symbol(text) => Some(EvalToken(g, pos, pos < |g.tokens| && g.tokens[pos].text == text))
      case Ref(name) => EvalRule(g, name, pos, fuel - 1)
      case Seq(items) => EvalSeq(g, items, pos, fuel - 1)
      case Alt(items) => EvalAlt(g, items, pos, fuel - 1)
      case Opt(inner) =>
        (match Eval(g, inner, pos, fuel - 1)
         case Some(Miss) => Some(Hit(pos, []))
         case other => other)
      case Rep(inner) =>
        (match Eval(g, inner, pos, fuel - 1)
         case Some(Hit(end, found)) =>
           if end == pos then None else Ahead(found, EvalMore(g, inner, end, fuel - 1))
         case other => other)
  }

  function EvalRule(g: Grammar, name: string, pos: nat, fuel: nat): (r: Option<Finding>)
    requires pos <= |g.tokens|
    ensures Onwards(g, pos, r)
    decreases fuel, 5, 0
  {
    if name !in g.forms then None
    else
      match Eval(g, g.forms[name], pos, fuel)
      case Some(Hit(end, found)) => Some(Hit(end, [Derivation(name, pos, end, found)]))
      case other => other
  }

  function EvalSeq(g: Grammar, items: seq<Form>, pos: nat, fuel: nat): (r: Option<Finding>)
    requires pos <= |g.tokens|
    ensures Onwards(g, pos, r)
    decreases fuel, 4, |items|
  {
    if items == [] then Some(Hit(pos, []))
    else
      match Eval(g, items[0], pos, fuel)
      case Some(Hit(end, found)) => Ahead(found, EvalSeq(g, items[1..], end, fuel))
      case other => other
  }

  function EvalAlt(g: Grammar, items: seq<Form>, pos: nat, fuel: nat): (r: Option<Finding>)
    requires pos <= |g.tokens|
    ensures Onwards(g, pos, r)
    decreases fuel, 4, |items|
  {
    if items == [] then Some(Miss)
    else
      match Eval(g, items[0], pos, fuel)
      case Some(Miss) => EvalAlt(g, items[1..], pos, fuel)
      case other => other
  }

  function EvalMore(g: Grammar, f: Form, pos: nat, fuel: nat): (r: Option<Finding>)
    requires pos <= |g.tokens|
    ensures Onwards(g, pos, r)
    decreases fuel, 4, |g.tokens| - pos
  {
    match Eval(g, f, pos, fuel)
    case None => None
    case Some(Miss) => Some(Hit(pos, []))
    case Some(Hit(end, found)) =>
      if end == pos then None else Ahead(found, EvalMore(g, f, end, fuel))
  }
}
