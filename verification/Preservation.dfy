/** Compilation preserves meaning: plain matching in the flat table is the parsing expression
    semantics of the grammar it was compiled from.  */
module Preservation {
  import opened RuleTable
  import opened Peg
  import opened Meaning
  import opened Compiler

  /** A table tree as a derivation: rule numbers read as rule names.  */
  function Named(c: Code, t: Tree): (d: Derivation)
    decreases t, 1
  {
    Derivation(if t.rule < |c.rules| then c.rules[t.rule].name else "", t.start, t.end, NamedAll(c, t.kids))
  }

  function NamedAll(c: Code, forest: seq<Tree>): (ds: seq<Derivation>)
    ensures |ds| == |forest|
    decreases forest, 0
  {
    if forest == [] then [] else [Named(c, forest[0])] + NamedAll(c, forest[1..])
  }

  function NamedOutcome(c: Code, o: Option<Outcome>): (r: Option<Finding>) {
    match o
    case None => None
    case Some(Fail) => Some(Miss)
    case Some(Match(end, forest)) => Some(Hit(end, NamedAll(c, forest)))
  }

  lemma {:induction false} NamedJoins(c: Code, f: seq<Tree>, g: seq<Tree>)
    ensures NamedAll(c, f + g) == NamedAll(c, f) + NamedAll(c, g)
  {
    if f == [] {
      assert f + g == g;
    } else {
      assert (f + g)[1..] == f[1..] + g;
      NamedJoins(c, f[1..], g);
    }
  }

  lemma NamedPrepend(c: Code, f: seq<Tree>, o: Option<Outcome>)
    ensures NamedOutcome(c, Prepend(f, o)) == Ahead(NamedAll(c, f), NamedOutcome(c, o))
  {
    if o.Some? && o.value.Match? {
      NamedJoins(c, f, o.value.forest);
    }
  }

  // ---------------------------------------------------------------------------------------------

  function PartsOf(c: Code): (p: Parts) {
    Parts(c.nodes, c.children, c.symbols)
  }

  predicate DistinctWords(keywords: seq<RuleTable.Word>) {
    forall i, j :: 0 <= i < j < |keywords| ==> keywords[i].text != keywords[j].text
  }

  /** The table `w` walks stands for the grammar `g`: every rule's root stands for its form.  */
  ghost predicate StandsFor(w: World, x: Fixed, g: Grammar) {
    && w.Ok() && w.guard.Off? && |w.code.symbols| <= 255 && Distinct(w.code.symbols)
    && g.tokens == w.tokens && g.keywords == w.code.keywords == x.keywords && DistinctWords(g.keywords)
    && g.forms.Keys == x.ids.Keys
    && (forall n :: n in x.ids ==>
          && x.ids[n] < |w.code.rules| && w.code.rules[x.ids[n]].name == n
          && Represents(x, PartsOf(w.code), w.code.rules[x.ids[n]].root, g.forms[n]))
  }

  /** The operators the matcher leaves to rules are those that rules spell out.  */
  lemma OperatorAgrees(text: string)
    ensures IsBareOperator(text) <==> IsUserOperator(text)
  {
    if |text| >= 2 {
      SpelledAgrees(text);
    }
  }

  lemma SpelledAgrees(text: string)
    requires |text| >= 2
    ensures text in NOT_OPERATORS <==> IsSpelledOut(text)
  {
    hide IsPattern;
    ListedAgrees(text);
    PatternAgrees(text);
  }

  lemma ListedAgrees(text: string)
    ensures text in NOT_OPERATORS <==>
            || text == "->" || text == "->>" || text == "<=" || text == ">=" || text == "!=" || text == "==" || text == "<>"
            || text == "~~~" || text == "~~" || text == "~~*" || text == "~*"
            || text == "!~~" || text == "!~~*" || text == "!~" || text == "!~*"
  {}

  lemma TildesAgree(text: string)
    ensures IsTildes(text) <==> text == "~" || text == "~~" || text == "~*" || text == "~~*"
  {
    if text != [] && text[|text| - 1] == '*' {
      assert text == text[..|text| - 1] + "*";
    }
  }

  lemma PatternAgrees(text: string)
    requires |text| >= 2
    ensures IsPattern(text) <==>
            || text == "~~" || text == "~~*" || text == "~*"
            || text == "!~~" || text == "!~~*" || text == "!~" || text == "!~*"
  {
    hide IsTildes;
    if text[0] == '!' {
      assert text == "!" + text[1..];
      TildesAgree(text[1..]);
    } else {
      TildesAgree(text);
    }
  }

  /** Which words a position takes, by number and by name.  */
  lemma ClassesAgree(classes: set<nat>, code: nat)
    requires code < 11
    ensures (UNRESERVED in classes || classes * AllowedClasses(code) != {}) <==>
            (exists k :: 0 <= k < |CLASS_RULES| && k in classes && MayName(CLASS_RULES[k], SUGGESTIONS[code]))
  {
    assert CLASS_RULES[1] == "UnreservedKeyword" && CLASS_RULES[2] == "ColumnNameKeyword";
    assert CLASS_RULES[3] == "FuncNameKeyword" && CLASS_RULES[4] == "TypeNameKeyword";
    assert forall k :: k in classes * AllowedClasses(code) <==> k in classes && k in AllowedClasses(code);
  }

  lemma NameAgrees(c: Code, t: Token, code: nat, reserved: bool)
    requires code < 11
    ensures IdentifierAccepts(c, t, code, reserved) <==> IsNameIn(c.keywords, t, SUGGESTIONS[code], reserved)
  {
    ClassesAgree(ClassesOf(c, t), code);
  }

  lemma TakesAgrees(c: Code, node: Node, t: Token)
    requires Standalone(node)
    ensures NodeOk(c, node) && !node.Composite()
    ensures Accepts(c, node, t) <==> Takes(c.keywords, node, t)
  {
    hide IdentifierAccepts, IsNameIn, IsBareOperator, IsUserOperator;
    match node
    case Identifier(code, reserved) => NameAgrees(c, t, code, reserved);
    case Operator => OperatorAgrees(t.text);
    case KeywordClass(mask) => assert forall k :: k in ClassesOf(c, t) * mask <==> k in ClassesOf(c, t) && k in mask;
    case _ =>
  }

  lemma {:induction false} CarryAgrees(tokens: seq<Token>, pos: nat)
    requires pos <= |tokens|
    ensures RunEnd(tokens, pos) == pos + CarryOn(tokens[pos..])
    decreases |tokens| - pos
  {
    if pos < |tokens| {
      CarryAgrees(tokens, pos + 1);
      assert tokens[pos..][1..] == tokens[pos + 1..];
    }
  }

  /** A terminal of the table takes what the terminal of the grammar takes, and goes as far.  */
  lemma LeafAgrees(c: Code, tokens: seq<Token>, node: Node, pos: nat)
    requires Standalone(node) && pos <= |tokens|
    ensures NodeOk(c, node) && !node.Composite()
    ensures TerminalEnd(c, tokens, node, pos) == LeafEnd(c.keywords, tokens, node, pos)
  {
    hide Accepts, Takes;
    if pos < |tokens| {
      TakesAgrees(c, node, tokens[pos]);
      CarryAgrees(tokens, pos + 1);
    }
  }

  /** A symbol's code decides its spelling.  */
  lemma SymbolPreserves(w: World, index: nat, pos: nat)
    requires index < |w.code.symbols| <= 255 && Distinct(w.code.symbols) && pos <= |w.tokens|
    ensures TerminalEnd(w.code, w.tokens, Node.Symbol(index), pos)
            == if pos < |w.tokens| && w.tokens[pos].text == w.code.symbols[index] then Some(pos + 1) else None
  {
    SymbolCodesAreExact(w.code.symbols);
    assert pos < |w.tokens| ==> CodeAgrees(w.code.symbols, w.tokens[pos].text, index);
  }

  lemma {:induction false} RunPreserves(w: World, x: Fixed, g: Grammar, n: nat, f: Form, pos: nat, fuel: nat)
    requires StandsFor(w, x, g) && Represents(x, PartsOf(w.code), n, f) && pos <= |w.tokens|
    ensures NamedOutcome(w.code, Run(w, n, pos, fuel)) == Eval(g, f, pos, fuel)
    decreases fuel, 3, 0
  {
    if fuel > 0 {
      var node, less := w.code.nodes[n], fuel - 1;
      match f
      case Leaf(leaf) => LeafAgrees(w.code, w.tokens, leaf, pos);
      case Word(_) =>
      case Symbol(_) => SymbolPreserves(w, node.index, pos);
      case Ref(name) => RulePreserves(w, x, g, name, pos, less);
      case Seq(items) => SequencePreserves(w, x, g, Span(w.code, node.start, node.len), items, pos, less);
      case Alt(items) => ChoicePreserves(w, x, g, Span(w.code, node.start, node.len), items, pos, less);
      case Opt(inner) => RunPreserves(w, x, g, node.child, inner, pos, less);
      case Rep(inner) =>
        RunPreserves(w, x, g, node.child, inner, pos, less);
        var r := Run(w, node.child, pos, less);
        if r.Some? && r.value.Match? && r.value.end > pos {
          MorePreserves(w, x, g, node.child, inner, r.value.end, less);
          NamedPrepend(w.code, r.value.forest, RunMore(w, node.child, r.value.end, less));
        }
    }
  }

  /** Matching a rule from its root in the table is matching it by name in the grammar: the same end,
      the same derivation, the same failures, and the same inputs on which neither ends.  */
  lemma {:induction false} RulePreserves(w: World, x: Fixed, g: Grammar, name: string, pos: nat, fuel: nat)
    requires StandsFor(w, x, g) && name in x.ids && pos <= |w.tokens|
    ensures x.ids[name] < |w.code.rules|
    ensures NamedOutcome(w.code, RunNode(w, Node.Rule(x.ids[name]), pos, fuel)) == EvalRule(g, name, pos, fuel)
    decreases fuel, 5, 0
  {
    var id := x.ids[name];
    RunPreserves(w, x, g, w.code.rules[id].root, g.forms[name], pos, fuel);
    var r := Run(w, w.code.rules[id].root, pos, fuel);
    if r.Some? && r.value.Match? {
      var tree := Tree(id, pos, r.value.end, r.value.forest);
      assert NamedAll(w.code, [tree]) == [Named(w.code, tree)];
    }
  }

  ghost predicate AllRepresent(w: World, x: Fixed, kids: seq<nat>, items: seq<Form>) {
    |kids| == |items| && NodesIn(w, kids)
    && forall i :: 0 <= i < |items| ==> Represents(x, PartsOf(w.code), kids[i], items[i])
  }

  lemma {:induction false} SequencePreserves(w: World, x: Fixed, g: Grammar, kids: seq<nat>, items: seq<Form>,
                                             pos: nat, fuel: nat)
    requires StandsFor(w, x, g) && AllRepresent(w, x, kids, items) && pos <= |w.tokens|
    ensures NamedOutcome(w.code, RunSequence(w, kids, pos, fuel)) == EvalSeq(g, items, pos, fuel)
    decreases fuel, 4, |items|
  {
    if items != [] {
      RunPreserves(w, x, g, kids[0], items[0], pos, fuel);
      var r := Run(w, kids[0], pos, fuel);
      if r.Some? && r.value.Match? {
        SequencePreserves(w, x, g, kids[1..], items[1..], r.value.end, fuel);
        NamedPrepend(w.code, r.value.forest, RunSequence(w, kids[1..], r.value.end, fuel));
      }
    }
  }

  lemma {:induction false} ChoicePreserves(w: World, x: Fixed, g: Grammar, kids: seq<nat>, items: seq<Form>,
                                           pos: nat, fuel: nat)
    requires StandsFor(w, x, g) && AllRepresent(w, x, kids, items) && pos <= |w.tokens|
    ensures NamedOutcome(w.code, RunChoice(w, kids, pos, fuel)) == EvalAlt(g, items, pos, fuel)
    decreases fuel, 4, |items|
  {
    if items != [] {
      RunPreserves(w, x, g, kids[0], items[0], pos, fuel);
      var r := Run(w, kids[0], pos, fuel);
      if r.Some? && r.value.Fail? {
        ChoicePreserves(w, x, g, kids[1..], items[1..], pos, fuel);
      }
    }
  }

  lemma {:induction false} MorePreserves(w: World, x: Fixed, g: Grammar, child: nat, inner: Form, pos: nat, fuel: nat)
    requires StandsFor(w, x, g) && Represents(x, PartsOf(w.code), child, inner) && pos <= |w.tokens|
    ensures NamedOutcome(w.code, RunMore(w, child, pos, fuel)) == EvalMore(g, inner, pos, fuel)
    decreases fuel, 4, |w.tokens| - pos
  {
    RunPreserves(w, x, g, child, inner, pos, fuel);
    var r := Run(w, child, pos, fuel);
    if r.Some? && r.value.Match? && r.value.end > pos {
      MorePreserves(w, x, g, child, inner, r.value.end, fuel);
      NamedPrepend(w.code, r.value.forest, RunMore(w, child, r.value.end, fuel));
    }
  }
}
