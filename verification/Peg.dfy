/** Parsing expression semantics of the flat table.

    `fuel` bounds how deeply nodes nest, so `None` means the match needs deeper nesting than that or
    does not end at all (a left recursive rule, or a repeat whose body matched nothing).  With the
    guard on, a node the FIRST filter rules out fails without being entered.  */
module Peg {
  import opened RuleTable

  /** The part of a parse tree rooted at one rule.  */
  datatype Tree = Tree(rule: nat, start: nat, end: nat, kids: seq<Tree>)

  datatype Outcome = Fail | Match(end: nat, forest: seq<Tree>)

  datatype Guard = Off | On(nullable: seq<bool>, first: seq<set<nat>>)

  /** What a match depends on: the code, the guard and the tokens.  */
  datatype World = World(code: Code, guard: Guard, tokens: seq<Token>) {
    predicate Ok() {
      && CodeOk(code)
      && (guard.On? ==> |guard.nullable| == |code.nodes| && |guard.first| == |code.nodes|)
    }

    /** The filter's no: a node that is not nullable and cannot begin with the token in hand.  */
    predicate Blocked(n: nat, pos: nat)
      requires Ok() && n < |code.nodes|
    {
      guard.On? && !guard.nullable[n] && KeyAt(tokens, pos) !in guard.first[n]
    }
  }

  /** Puts trees in front of what a match collected.  */
  function Prepend(forest: seq<Tree>, o: Option<Outcome>): (r: Option<Outcome>)
    ensures r.Some? <==> o.Some?
    ensures r.Some? ==> (r.value.Match? <==> o.value.Match?)
    ensures r.Some? && r.value.Match? ==> r.value == Match(o.value.end, forest + o.value.forest)
  {
    match o
    case Some(Match(end, rest)) => Some(Match(end, forest + rest))
    case _ => o
  }

  /** A match never moves backwards or past the last token.  */
  predicate InRange(w: World, pos: nat, r: Option<Outcome>) {
    r.Some? && r.value.Match? ==> pos <= r.value.end <= |w.tokens|
  }

  function Run(w: World, n: nat, pos: nat, fuel: nat): (r: Option<Outcome>)
    requires w.Ok() && n < |w.code.nodes| && pos <= |w.tokens|
    ensures InRange(w, pos, r)
    decreases fuel, 3, 0
  {
    if fuel == 0 then None
    else if w.Blocked(n, pos) then Some(Fail)
    else RunNode(w, w.code.nodes[n], pos, fuel - 1)
  }

  function RunNode(w: World, node: Node, pos: nat, fuel: nat): (r: Option<Outcome>)
    requires w.Ok() && NodeOk(w.code, node) && pos <= |w.tokens|
    ensures InRange(w, pos, r)
    decreases fuel, 5, 0
  {
    match node
    case Rule(id) =>
      (match Run(w, w.code.rules[id].root, pos, fuel)
       case Some(Match(end, forest)) => Some(Match(end, [Tree(id, pos, end, forest)]))
       case other => other)
    case Sequence(start, len) => RunSequence(w, Span(w.code, start, len), pos, fuel)
    case Choice(start, len) => RunChoice(w, Span(w.code, start, len), pos, fuel)
    case Optional(child) =>
      (match Run(w, child, pos, fuel)
       case Some(Fail) => Some(Match(pos, []))
       case other => other)
    case Repeat(child) =>
      (match Run(w, child, pos, fuel)
       case Some(Match(end, forest)) =>
         if end == pos then None else Prepend(forest, RunMore(w, child, end, fuel))
       case other => other)
    case _ =>
      (match TerminalEnd(w.code, w.tokens, node, pos)
       case Some(end) => Some(Match(end, []))
       case None => Some(Fail))
  }

  predicate NodesIn(w: World, kids: seq<nat>) {
    forall i :: 0 <= i < |kids| ==> kids[i] < |w.code.nodes|
  }

  function RunSequence(w: World, kids: seq<nat>, pos: nat, fuel: nat): (r: Option<Outcome>)
    requires w.Ok() && NodesIn(w, kids) && pos <= |w.tokens|
    ensures InRange(w, pos, r)
    decreases fuel, 4, |kids|
  {
    if kids == [] then Some(Match(pos, []))
    else
      match Run(w, kids[0], pos, fuel)
      case Some(Match(end, forest)) => Prepend(forest, RunSequence(w, kids[1..], end, fuel))
      case other => other
  }

  function RunChoice(w: World, kids: seq<nat>, pos: nat, fuel: nat): (r: Option<Outcome>)
    requires w.Ok() && NodesIn(w, kids) && pos <= |w.tokens|
    ensures InRange(w, pos, r)
    decreases fuel, 4, |kids|
  {
    if kids == [] then Some(Fail)
    else
      match Run(w, kids[0], pos, fuel)
      case Some(Fail) => RunChoice(w, kids[1..], pos, fuel)
      case other => other
  }

  /** The iterations of a repeat after the first.  */
  function RunMore(w: World, child: nat, pos: nat, fuel: nat): (r: Option<Outcome>)
    requires w.Ok() && child < |w.code.nodes| && pos <= |w.tokens|
    ensures InRange(w, pos, r)
    ensures r.Some? ==> r.value.Match?
    decreases fuel, 4, |w.tokens| - pos
  {
    match Run(w, child, pos, fuel)
    case None => None
    case Some(Fail) => Some(Match(pos, []))
    case Some(Match(end, forest)) =>
      if end == pos then None else Prepend(forest, RunMore(w, child, end, fuel))
  }

  // ---------------------------------------------------------------------------------------------
  // More fuel changes nothing

  lemma {:induction false} RunMonotone(w: World, n: nat, pos: nat, fuel: nat, more: nat)
    requires w.Ok() && n < |w.code.nodes| && pos <= |w.tokens| && fuel <= more
    requires Run(w, n, pos, fuel).Some?
    ensures Run(w, n, pos, more) == Run(w, n, pos, fuel)
    decreases fuel, 3, 0
  {
    if !w.Blocked(n, pos) {
      NodeMonotone(w, w.code.nodes[n], pos, fuel - 1, more - 1);
    }
  }

  lemma {:induction false} NodeMonotone(w: World, node: Node, pos: nat, fuel: nat, more: nat)
    requires w.Ok() && NodeOk(w.code, node) && pos <= |w.tokens| && fuel <= more
    requires RunNode(w, node, pos, fuel).Some?
    ensures RunNode(w, node, pos, more) == RunNode(w, node, pos, fuel)
    decreases fuel, 5, 0
  {
    match node
    case Rule(id) => RunMonotone(w, w.code.rules[id].root, pos, fuel, more);
    case Sequence(start, len) => SequenceMonotone(w, Span(w.code, start, len), pos, fuel, more);
    case Choice(start, len) => ChoiceMonotone(w, Span(w.code, start, len), pos, fuel, more);
    case Optional(child) => RunMonotone(w, child, pos, fuel, more);
    case Repeat(child) =>
      RunMonotone(w, child, pos, fuel, more);
      var r := Run(w, child, pos, fuel).value;
      if r.Match? {
        MoreMonotone(w, child, r.end, fuel, more);
      }
    case _ =>
  }

  lemma {:induction false} SequenceMonotone(w: World, kids: seq<nat>, pos: nat, fuel: nat, more: nat)
    requires w.Ok() && NodesIn(w, kids) && pos <= |w.tokens| && fuel <= more
    requires RunSequence(w, kids, pos, fuel).Some?
    ensures RunSequence(w, kids, pos, more) == RunSequence(w, kids, pos, fuel)
    decreases fuel, 4, |kids|
  {
    if kids != [] {
      RunMonotone(w, kids[0], pos, fuel, more);
      var r := Run(w, kids[0], pos, fuel).value;
      if r.Match? {
        SequenceMonotone(w, kids[1..], r.end, fuel, more);
      }
    }
  }

  lemma {:induction false} ChoiceMonotone(w: World, kids: seq<nat>, pos: nat, fuel: nat, more: nat)
    requires w.Ok() && NodesIn(w, kids) && pos <= |w.tokens| && fuel <= more
    requires RunChoice(w, kids, pos, fuel).Some?
    ensures RunChoice(w, kids, pos, more) == RunChoice(w, kids, pos, fuel)
    decreases fuel, 4, |kids|
  {
    if kids != [] {
      RunMonotone(w, kids[0], pos, fuel, more);
      if Run(w, kids[0], pos, fuel).value.Fail? {
        ChoiceMonotone(w, kids[1..], pos, fuel, more);
      }
    }
  }

  lemma {:induction false} MoreMonotone(w: World, child: nat, pos: nat, fuel: nat, more: nat)
    requires w.Ok() && child < |w.code.nodes| && pos <= |w.tokens| && fuel <= more
    requires RunMore(w, child, pos, fuel).Some?
    ensures RunMore(w, child, pos, more) == RunMore(w, child, pos, fuel)
    decreases fuel, 4, |w.tokens| - pos
  {
    RunMonotone(w, child, pos, fuel, more);
    var r := Run(w, child, pos, fuel).value;
    if r.Match? {
      MoreMonotone(w, child, r.end, fuel, more);
    }
  }
}
