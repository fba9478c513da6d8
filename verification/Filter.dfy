/** The FIRST filter: what the solved sets promise about a match, and why skipping on them never
    changes a result.  */
module Filter {
  import opened RuleTable
  import opened Peg
  import opened First

  /** Class numbers and keyword indices fit the widths the table gives them.  */
  predicate KeywordsOk(c: Code) {
    && |c.keywords| <= NOT_A_KEYWORD
    && forall i :: 0 <= i < |c.keywords| ==> forall k :: k in c.keywords[i].classes ==> k < CLASSES
  }

  /** Tokens as the tokenizer hands them over.  */
  ghost predicate Keyed(w: World) {
    KeywordsOk(w.code) && AllWellKeyed(w.code, w.tokens)
  }

  /** Sets that are closed under the equations, which any solution is.  */
  ghost predicate Setting(w: World, a: Answer) {
    w.Ok() && Closed(w.code, a)
  }

  /** A match that consumes nothing needs a nullable node; one that consumes something starts with a
      token whose key is in FIRST.  */
  ghost predicate Promised(w: World, pos: nat, r: Option<Outcome>, nullable: bool, first: set<nat>) {
    r.Some? && r.value.Match? ==>
      && (r.value.end == pos ==> nullable)
      && (r.value.end > pos && Keyed(w) ==> pos < |w.tokens| && TokenKey(w.tokens[pos]) in first)
  }

  lemma {:induction false} FirstSound(w: World, a: Answer, n: nat, pos: nat, fuel: nat)
    requires Setting(w, a) && n < |w.code.nodes| && pos <= |w.tokens|
    ensures Promised(w, pos, Run(w, n, pos, fuel), a.nullable[n], a.first[n])
    decreases fuel, 3, 0
  {
    if fuel > 0 && !w.Blocked(n, pos) {
      NodeFirstSound(w, a, w.code.nodes[n], pos, fuel - 1);
      assert Below(Equation(w.code, w.code.nodes[n], a), (a.nullable[n], a.first[n]));
    }
  }

  lemma {:induction false} NodeFirstSound(w: World, a: Answer, node: Node, pos: nat, fuel: nat)
    requires Setting(w, a) && NodeOk(w.code, node) && pos <= |w.tokens|
    ensures var (nullable, first) := Equation(w.code, node, a);
            Promised(w, pos, RunNode(w, node, pos, fuel), nullable, first)
    decreases fuel, 5, 0
  {
    match node
    case Rule(id) => FirstSound(w, a, w.code.rules[id].root, pos, fuel);
    case Sequence(start, len) => SequenceSound(w, a, Span(w.code, start, len), pos, fuel);
    case Choice(start, len) => ChoiceSound(w, a, Span(w.code, start, len), pos, fuel);
    case Optional(child) => FirstSound(w, a, child, pos, fuel);
    case Repeat(child) => FirstSound(w, a, child, pos, fuel);
    case _ => TerminalSound(w, a, node, pos, fuel);
  }

  lemma TerminalSound(w: World, a: Answer, node: Node, pos: nat, fuel: nat)
    requires Setting(w, a) && NodeOk(w.code, node) && pos <= |w.tokens| && !node.Composite()
    ensures var (nullable, first) := Equation(w.code, node, a);
            Promised(w, pos, RunNode(w, node, pos, fuel), nullable, first)
  {
    if TerminalEnd(w.code, w.tokens, node, pos).Some? && Keyed(w) {
      TerminalFirstSound(w.code, node, w.tokens[pos]);
    }
  }

  lemma {:induction false} SequenceSound(w: World, a: Answer, kids: seq<nat>, pos: nat, fuel: nat)
    requires Setting(w, a) && NodesIn(w, kids) && pos <= |w.tokens|
    ensures Promised(w, pos, RunSequence(w, kids, pos, fuel), AllNullable(kids, a), SequenceFirst(kids, a))
    decreases fuel, 4, |kids|
  {
    if kids != [] {
      FirstSound(w, a, kids[0], pos, fuel);
      var r := Run(w, kids[0], pos, fuel);
      if r.Some? && r.value.Match? {
        SequenceSound(w, a, kids[1..], r.value.end, fuel);
        assert AllNullable(kids[1..], a) && a.nullable[kids[0]] ==> AllNullable(kids, a);
      }
    }
  }

  lemma {:induction false} ChoiceSound(w: World, a: Answer, kids: seq<nat>, pos: nat, fuel: nat)
    requires Setting(w, a) && NodesIn(w, kids) && pos <= |w.tokens|
    ensures Promised(w, pos, RunChoice(w, kids, pos, fuel), AnyNullable(kids, a), ChoiceFirst(kids, a))
    decreases fuel, 4, |kids|
  {
    if kids != [] {
      FirstSound(w, a, kids[0], pos, fuel);
      ChoiceSound(w, a, kids[1..], pos, fuel);
      assert ChoiceFirst(kids[1..], a) <= ChoiceFirst(kids, a);
      assert a.first[kids[0]] <= ChoiceFirst(kids, a);
      assert AnyNullable(kids[1..], a) ==> AnyNullable(kids, a) by {
        if AnyNullable(kids[1..], a) {
          var i :| 0 <= i < |kids[1..]| && a.nullable[kids[1..][i]];
          assert a.nullable[kids[i + 1]];
        }
      }
    }
  }

  /** A node the filter rules out cannot match, filtered or not.  */
  lemma BlockedCannotMatch(w: World, a: Answer, n: nat, pos: nat, fuel: nat)
    requires Setting(w, a) && Keyed(w) && n < |w.code.nodes| && pos <= |w.tokens|
    requires !a.nullable[n] && KeyAt(w.tokens, pos) !in a.first[n]
    ensures Run(w, n, pos, fuel).Some? ==> Run(w, n, pos, fuel).value.Fail?
  {
    FirstSound(w, a, n, pos, fuel);
  }

  // ---------------------------------------------------------------------------------------------
  // The filter refines plain matching

  /** The same code and tokens with the guard on.  */
  function Filtered(w: World, a: Answer): (v: World) {
    w.(guard := On(a.nullable, a.first))
  }

  ghost predicate Plain(w: World, a: Answer) {
    Setting(w, a) && Keyed(w) && w.guard.Off?
  }

  /** Whatever plain matching returns, filtered matching returns, at the same nesting depth: the same
      end and the same trees, and the same failures.  */
  lemma {:induction false} FilterRefines(w: World, a: Answer, n: nat, pos: nat, fuel: nat)
    requires Plain(w, a) && n < |w.code.nodes| && pos <= |w.tokens|
    requires Run(w, n, pos, fuel).Some?
    ensures Run(Filtered(w, a), n, pos, fuel) == Run(w, n, pos, fuel)
    decreases fuel, 3, 0
  {
    var v := Filtered(w, a);
    if v.Blocked(n, pos) {
      BlockedCannotMatch(w, a, n, pos, fuel);
    } else {
      FilterRefinesNode(w, a, w.code.nodes[n], pos, fuel - 1);
    }
  }

  lemma {:induction false} FilterRefinesNode(w: World, a: Answer, node: Node, pos: nat, fuel: nat)
    requires Plain(w, a) && NodeOk(w.code, node) && pos <= |w.tokens|
    requires RunNode(w, node, pos, fuel).Some?
    ensures RunNode(Filtered(w, a), node, pos, fuel) == RunNode(w, node, pos, fuel)
    decreases fuel, 5, 0
  {
    match node
    case Rule(id) => FilterRefines(w, a, w.code.rules[id].root, pos, fuel);
    case Sequence(start, len) => FilterRefinesSequence(w, a, Span(w.code, start, len), pos, fuel);
    case Choice(start, len) => FilterRefinesChoice(w, a, Span(w.code, start, len), pos, fuel);
    case Optional(child) => FilterRefines(w, a, child, pos, fuel);
    case Repeat(child) =>
      FilterRefines(w, a, child, pos, fuel);
      var r := Run(w, child, pos, fuel).value;
      if r.Match? {
        FilterRefinesMore(w, a, child, r.end, fuel);
      }
    case _ =>
  }

  lemma {:induction false} FilterRefinesSequence(w: World, a: Answer, kids: seq<nat>, pos: nat, fuel: nat)
    requires Plain(w, a) && NodesIn(w, kids) && pos <= |w.tokens|
    requires RunSequence(w, kids, pos, fuel).Some?
    ensures RunSequence(Filtered(w, a), kids, pos, fuel) == RunSequence(w, kids, pos, fuel)
    decreases fuel, 4, |kids|
  {
    if kids != [] {
      FilterRefines(w, a, kids[0], pos, fuel);
      var r := Run(w, kids[0], pos, fuel).value;
      if r.Match? {
        FilterRefinesSequence(w, a, kids[1..], r.end, fuel);
      }
    }
  }

  lemma {:induction false} FilterRefinesChoice(w: World, a: Answer, kids: seq<nat>, pos: nat, fuel: nat)
    requires Plain(w, a) && NodesIn(w, kids) && pos <= |w.tokens|
    requires RunChoice(w, kids, pos, fuel).Some?
    ensures RunChoice(Filtered(w, a), kids, pos, fuel) == RunChoice(w, kids, pos, fuel)
    decreases fuel, 4, |kids|
  {
    if kids != [] {
      FilterRefines(w, a, kids[0], pos, fuel);
      if Run(w, kids[0], pos, fuel).value.Fail? {
        FilterRefinesChoice(w, a, kids[1..], pos, fuel);
      }
    }
  }

  lemma {:induction false} FilterRefinesMore(w: World, a: Answer, child: nat, pos: nat, fuel: nat)
    requires Plain(w, a) && child < |w.code.nodes| && pos <= |w.tokens|
    requires RunMore(w, child, pos, fuel).Some?
    ensures RunMore(Filtered(w, a), child, pos, fuel) == RunMore(w, child, pos, fuel)
    decreases fuel, 4, |w.tokens| - pos
  {
    FilterRefines(w, a, child, pos, fuel);
    var r := Run(w, child, pos, fuel).value;
    if r.Match? {
      FilterRefinesMore(w, a, child, r.end, fuel);
    }
  }
}
