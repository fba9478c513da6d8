/** What the rules that stand for terminals match, said of tokens: the overridden names, the end of input, and
    the keyword classes.  */
module TerminalRules {
  import opened RuleTable
  import opened Meaning
  import opened Syntax
  import opened Compiler
  import opened Generate
  import opened EndToEnd
  import opened Preservation
  import opened Reach

  // ---------------------------------------------------------------------------------------------
  // The override list

  /** The last line of the list that is about `name`.  */
  ghost predicate LastLine(lines: seq<Overriding>, name: string, i: nat) {
    i < |lines| && lines[i].name == name && forall j :: i < j < |lines| ==> lines[j].name != name
  }

  lemma {:induction false} LastLineCounts(lines: seq<Overriding>, name: string, i: nat)
    requires LastLine(lines, name, i)
    ensures LastOverride(lines, name) == Terminal(lines[i])
    decreases |lines|
  {
    if i < |lines| - 1 {
      LastLineCounts(lines[..|lines| - 1], name, i);
    }
  }

  lemma {:induction false} NoLineNoOverride(lines: seq<Overriding>, name: string)
    requires forall i :: 0 <= i < |lines| ==> lines[i].name != name
    ensures LastOverride(lines, name) == None
  {
    if lines != [] {
      NoLineNoOverride(lines[..|lines| - 1], name);
    }
  }

  /** A position that an identifier matcher can be built for.  */
  predicate IsPosition(text: string) {
    || text == "SUGGEST_VARIABLE" || text == "SUGGEST_CATALOG_NAME" || text == "SUGGEST_SCHEMA_NAME"
    || text == "SUGGEST_TABLE_NAME" || text == "SUGGEST_COLUMN_NAME" || text == "SUGGEST_SCALAR_FUNCTION_NAME"
    || text == "SUGGEST_TABLE_FUNCTION_NAME" || text == "SUGGEST_TYPE_NAME" || text == "SUGGEST_PRAGMA_NAME"
    || text == "SUGGEST_SETTING_NAME" || text == "SUGGEST_FILE_NAME"
  }

  lemma PositionsListed(text: string)
    ensures text in SUGGESTIONS <==> IsPosition(text)
  {}

  /** Which lines are understood.  */
  lemma KnownLines(o: Overriding)
    ensures Terminal(o).Some? <==>
            || o.matcher == "NumberLiteralMatcher" || o.matcher == "StringLiteralMatcher"
            || o.matcher == "OperatorMatcher" || o.matcher == "EndOfInputMatcher"
            || ((o.matcher == "IdentifierMatcher" || o.matcher == "ReservedIdentifierMatcher") && IsPosition(o.suggestion))
  {
    hide IsPosition;
    PositionsListed(o.suggestion);
  }

  // ---------------------------------------------------------------------------------------------
  // What the rules match

  /** The rule matches here exactly when `taken`, and then up to `end`.  */
  ghost predicate Matches(g: Grammar, name: string, pos: nat, fuel: nat, taken: bool, end: nat)
    requires pos <= |g.tokens|
  {
    EvalRule(g, name, pos, fuel) == Some(if taken then Hit(end, [Derivation(name, pos, end, [])]) else Miss)
  }

  /** A plain string on a line of its own, with no block comment before it.  */
  predicate Carries(t: Token) {
    t.kind == Kind.String && t.text != [] && t.text[0] == '\'' && t.newline && !t.blockComment
  }

  /** Where a literal that starts at `pos` ends: a plain one goes on over every string that carries it on, any
      other ends at once.  */
  ghost predicate LiteralEnds(tokens: seq<Token>, pos: nat, end: nat)
    requires pos < |tokens|
  {
    && pos < end <= |tokens|
    && if tokens[pos].text != [] && tokens[pos].text[0] == '\'' then
         (forall j :: pos < j < end ==> Carries(tokens[j])) && (end < |tokens| ==> !Carries(tokens[end]))
       else end == pos + 1
  }

  /** The rule matches here exactly when a string is here, and then up to where the literal ends.  */
  ghost predicate MatchesLiteral(g: Grammar, name: string, pos: nat, fuel: nat, end: nat)
    requires pos <= |g.tokens|
  {
    var taken := pos < |g.tokens| && g.tokens[pos].kind == Kind.String;
    Matches(g, name, pos, fuel, taken, end) && (taken ==> LiteralEnds(g.tokens, pos, end))
  }

  lemma {:induction false} CarriesOn(tokens: seq<Token>, pos: nat)
    requires pos <= |tokens|
    ensures var end := pos + CarryOn(tokens[pos..]);
            (forall j :: pos <= j < end ==> Carries(tokens[j])) && (end < |tokens| ==> !Carries(tokens[end]))
    decreases |tokens| - pos
  {
    if pos < |tokens| && Carries(tokens[pos]) {
      CarriesOn(tokens, pos + 1);
      assert tokens[pos..][1..] == tokens[pos + 1..];
    }
  }

  /** What one line makes a rule match.  */
  ghost predicate LineMatches(o: Overriding, g: Grammar, pos: nat, fuel: nat)
    requires pos <= |g.tokens|
  {
    var here := pos < |g.tokens|;
    && (o.matcher == "NumberLiteralMatcher" ==>
          Matches(g, o.name, pos, fuel, here && g.tokens[pos].kind == Kind.Number && g.tokens[pos].text != ".", pos + 1))
    && (o.matcher == "StringLiteralMatcher" ==>
          exists end: nat :: MatchesLiteral(g, o.name, pos, fuel, end))
    && (o.matcher == "OperatorMatcher" ==>
          Matches(g, o.name, pos, fuel,
                  here && g.tokens[pos].kind == Kind.Operator && IsUserOperator(g.tokens[pos].text), pos + 1))
    && (o.matcher == "EndOfInputMatcher" ==>
          Matches(g, o.name, pos, fuel, here && g.tokens[pos].kind == Kind.EndOfInput, pos + 1))
    && (o.matcher == "IdentifierMatcher" ==>
          Matches(g, o.name, pos, fuel, here && IsNameIn(g.keywords, g.tokens[pos], o.suggestion, false), pos + 1))
    && (o.matcher == "ReservedIdentifierMatcher" ==>
          Matches(g, o.name, pos, fuel, here && IsNameIn(g.keywords, g.tokens[pos], o.suggestion, true), pos + 1))
  }

  /** A leaf is matched in one step.  */
  lemma LeafRule(g: Grammar, name: string, node: Node, pos: nat, fuel: nat)
    requires pos <= |g.tokens| && fuel > 0 && name in g.forms && g.forms[name] == Leaf(node) && Standalone(node)
    ensures var end := LeafEnd(g.keywords, g.tokens, node, pos);
            Matches(g, name, pos, fuel, end.Some?, if end.Some? then end.value else 0)
  {}

  lemma TerminalMatches(o: Overriding, node: Node, g: Grammar, pos: nat, fuel: nat)
    requires Terminal(o) == Some(node) && pos <= |g.tokens| && fuel > 0
    requires o.name in g.forms && g.forms[o.name] == Leaf(node)
    ensures LineMatches(o, g, pos, fuel)
  {
    hide IsNameIn, IsUserOperator, Matches, Find;
    LeafRule(g, o.name, node, pos, fuel);
    if o.matcher == "StringLiteralMatcher" {
      StringMatches(g, o.name, pos, fuel);
    } else {
      OneToken(g, o.name, node, pos, fuel);
    }
  }

  /** Only a string takes more than one token.  */
  lemma OneToken(g: Grammar, name: string, node: Node, pos: nat, fuel: nat)
    requires pos <= |g.tokens| && fuel > 0 && name in g.forms && g.forms[name] == Leaf(node)
    requires Standalone(node) && !node.String?
    ensures Matches(g, name, pos, fuel, pos < |g.tokens| && Takes(g.keywords, node, g.tokens[pos]), pos + 1)
  {
    hide Takes;
    LeafRule(g, name, node, pos, fuel);
  }

  lemma StringMatches(g: Grammar, name: string, pos: nat, fuel: nat)
    requires pos <= |g.tokens| && fuel > 0 && name in g.forms && g.forms[name] == Leaf(Node.String)
    ensures exists end: nat :: MatchesLiteral(g, name, pos, fuel, end)
  {
    LeafRule(g, name, Node.String, pos, fuel);
    var end := LeafEnd(g.keywords, g.tokens, Node.String, pos);
    var taken := pos < |g.tokens| && g.tokens[pos].kind == Kind.String;
    assert taken == end.Some?;
    var to := if taken then end.value else 0;
    if taken {
      CarriesOn(g.tokens, pos + 1);
      assert LiteralEnds(g.tokens, pos, to);
    }
    assert MatchesLiteral(g, name, pos, fuel, to);
  }

  /** In a generated table a surviving name with a line in the override list matches what its last line says.  */
  lemma OverriddenRule(x: Fixed, parsed: seq<Rule>, lines: seq<Overriding>, overriding: map<string, Node>,
                       c: Code, limit: nat, tokens: seq<Token>, i: nat, pos: nat, fuel: nat)
    requires FromFiles(x, parsed, x.keywords, lines, overriding) && Describes(c, x, limit)
    requires i < |lines| && LastLine(lines, lines[i].name, i) && lines[i].name in x.ids
    requires pos <= |tokens| && fuel > 0
    ensures LineMatches(lines[i], GrammarOf(c, x, limit, tokens), pos, fuel)
  {
    hide Reachable, Represents, Expand, LineMatches, Indexes;
    var name := lines[i].name;
    LastLineCounts(lines, name, i);
    assert Resolution(x.env.bodies, overriding, CLASS_RULES, name) == Some(x.env.resolved[name]);
    var node := overriding[name];
    assert RuleForm(x.env, name, limit) == Ok(Leaf(node));
    TerminalMatches(lines[i], node, GrammarOf(c, x, limit, tokens), pos, fuel);
  }

  /** The end of input and the keyword classes, where no line overrides them.  */
  lemma BuiltInRule(x: Fixed, parsed: seq<Rule>, lines: seq<Overriding>, overriding: map<string, Node>,
                    c: Code, limit: nat, tokens: seq<Token>, name: string, pos: nat, fuel: nat)
    requires FromFiles(x, parsed, x.keywords, lines, overriding) && Describes(c, x, limit) && name in x.ids
    requires forall i :: 0 <= i < |lines| ==> lines[i].name != name
    requires pos <= |tokens| && fuel > 0
    ensures var g := GrammarOf(c, x, limit, tokens);
            name == "EndOfInput" ==>
              Matches(g, name, pos, fuel, pos < |tokens| && tokens[pos].kind == Kind.EndOfInput, pos + 1)
    ensures var g := GrammarOf(c, x, limit, tokens);
            forall k :: 0 <= k < 5 && name == ClassName(k) ==>
              Matches(g, name, pos, fuel, pos < |tokens| && HasClass(x.keywords, tokens[pos], k), pos + 1)
  {
    hide Reachable, Represents, Expand, Indexes, Matches, ClassName;
    NoLineNoOverride(lines, name);
    var g := GrammarOf(c, x, limit, tokens);
    assert Resolution(x.env.bodies, overriding, CLASS_RULES, name) == Some(x.env.resolved[name]);
    if name == "EndOfInput" {
      assert RuleForm(x.env, name, limit) == Ok(Leaf(Node.EndOfInput));
      OneToken(g, name, Node.EndOfInput, pos, fuel);
    }
    forall k | 0 <= k < 5 && name == ClassName(k)
      ensures Matches(g, name, pos, fuel, pos < |tokens| && HasClass(x.keywords, tokens[pos], k), pos + 1)
    {
      ClassFound(k);
      assert RuleForm(x.env, name, limit) == Ok(Leaf(KeywordClass({k})));
      ClassTaken(g, name, k, pos, fuel);
    }
  }

  lemma ClassTaken(g: Grammar, name: string, k: nat, pos: nat, fuel: nat)
    requires k < 5 && pos <= |g.tokens| && fuel > 0 && name in g.forms && g.forms[name] == Leaf(KeywordClass({k}))
    ensures Matches(g, name, pos, fuel, pos < |g.tokens| && HasClass(g.keywords, g.tokens[pos], k), pos + 1)
  {
    hide Matches;
    OneToken(g, name, KeywordClass({k}), pos, fuel);
    assert pos < |g.tokens| ==>
        Takes(g.keywords, KeywordClass({k}), g.tokens[pos]) == HasClass(g.keywords, g.tokens[pos], k);
  }

  /** The rule that stands for a keyword class.  */
  function ClassName(k: nat): string
    requires k < 5
  {
    match k
    case 0 => "ReservedKeyword"
    case 1 => "UnreservedKeyword"
    case 2 => "ColumnNameKeyword"
    case 3 => "FuncNameKeyword"
    case _ => "TypeNameKeyword"
  }

  lemma ClassFound(k: nat)
    requires k < 5
    ensures ClassName(k) in CLASS_RULES && ClassName(k) != END_RULE && Find(CLASS_RULES, ClassName(k)) == Some(k)
  {
    assert CLASS_RULES[k] == ClassName(k);
    var at := Find(CLASS_RULES, ClassName(k));
    assert forall i, j :: 0 <= i < j < 5 ==> CLASS_RULES[i] != CLASS_RULES[j];
  }

  /** A keyword token whose word is in a class.  */
  predicate HasClass(keywords: seq<RuleTable.Word>, t: Token, k: nat) {
    t.kind == Kind.Keyword && t.keyword < |keywords| && k in keywords[t.keyword].classes
  }

  // ---------------------------------------------------------------------------------------------
  // Names, by class and position

  const TABLE_NAME: nat := 3
  const SCALAR_FUNCTION: nat := 5
  const TABLE_FUNCTION: nat := 6
  const TYPE_POSITION: nat := 7
  const FILE_NAME: nat := 10

  lemma PositionNames()
    ensures SUGGESTIONS[TABLE_NAME] == "SUGGEST_TABLE_NAME" && SUGGESTIONS[FILE_NAME] == "SUGGEST_FILE_NAME"
    ensures SUGGESTIONS[SCALAR_FUNCTION] == "SUGGEST_SCALAR_FUNCTION_NAME"
    ensures SUGGESTIONS[TABLE_FUNCTION] == "SUGGEST_TABLE_FUNCTION_NAME"
    ensures SUGGESTIONS[TYPE_POSITION] == "SUGGEST_TYPE_NAME"
    ensures |SUGGESTIONS| == 11 && forall i, j :: 0 <= i < j < 11 ==> SUGGESTIONS[i] != SUGGESTIONS[j]
  {}

  /** Which keywords a name node of the table takes.  An unreserved word goes anywhere; a word of one class
      goes where that class does; and a reserved node takes every word.  */
  lemma KeywordNames(c: Code, t: Token, code: nat, reserved: bool)
    requires code < 11 && t.kind == Kind.Keyword && t.keyword < |c.keywords|
    ensures var taken := Accepts(c, Node.Identifier(code, reserved), t);
            var classes := c.keywords[t.keyword].classes;
            var isFunction := code == SCALAR_FUNCTION || code == TABLE_FUNCTION;
            && (reserved ==> taken)
            && (1 in classes ==> taken)
            && (classes == {0} ==> (taken <==> reserved))
            && (classes == {3} ==> (taken <==> reserved || isFunction))
            && (classes == {4} ==> (taken <==> reserved || isFunction || code == TYPE_POSITION))
            && (classes == {2} ==> (taken <==> reserved || !(isFunction || code == TYPE_POSITION)))
            && (taken <==> reserved || exists k :: k in classes && k < 5 && MayName(ClassName(k), SUGGESTIONS[code]))
  {
    hide IdentifierAccepts, IsNameIn;
    NameAgrees(c, t, code, reserved);
    NamesByClass(c.keywords, t, code, reserved);
  }

  lemma NamesByClass(keywords: seq<RuleTable.Word>, t: Token, code: nat, reserved: bool)
    requires code < 11 && t.kind == Kind.Keyword && t.keyword < |keywords|
    ensures var taken := IsNameIn(keywords, t, SUGGESTIONS[code], reserved);
            var classes := keywords[t.keyword].classes;
            var isFunction := code == SCALAR_FUNCTION || code == TABLE_FUNCTION;
            && (reserved ==> taken)
            && (1 in classes ==> taken)
            && (classes == {0} ==> (taken <==> reserved))
            && (classes == {3} ==> (taken <==> reserved || isFunction))
            && (classes == {4} ==> (taken <==> reserved || isFunction || code == TYPE_POSITION))
            && (classes == {2} ==> (taken <==> reserved || !(isFunction || code == TYPE_POSITION)))
            && (taken <==> reserved || exists k :: k in classes && k < 5 && MayName(ClassName(k), SUGGESTIONS[code]))
  {
    PositionNames();
    var classes := keywords[t.keyword].classes;
    forall k | 0 <= k < 5 ensures CLASS_RULES[k] == ClassName(k) {}
    assert ClassName(0) == CLASS_RULES[0] && ClassName(1) == CLASS_RULES[1] && ClassName(2) == CLASS_RULES[2];
    assert ClassName(3) == CLASS_RULES[3] && ClassName(4) == CLASS_RULES[4];
  }

  /** Which other tokens it takes: every quoted name and every word in no class, plain strings where tables and
      files are named, and nothing else.  */
  lemma OtherNames(c: Code, t: Token, code: nat, reserved: bool)
    requires code < 11 && t.kind != Kind.Keyword
    ensures Accepts(c, Node.Identifier(code, reserved), t) <==>
            || t.kind == Kind.QuotedIdentifier || t.kind == Kind.Identifier
            || (t.kind == Kind.String && t.text != [] && t.text[0] == '\'' && (code == TABLE_NAME || code == FILE_NAME))
  {}

  /** A dot by itself is no number.  */
  lemma LoneDot(c: Code, t: Token)
    requires t.text == "."
    ensures !Accepts(c, Node.Number, t)
  {}
}
