/** When a match ends: repeats always consume, and a table without left recursion always answers.  */
module Progress {
  import opened RuleTable
  import opened Peg
  import opened First
  import opened Filter

  /** The static check: no repeat has a body that can match nothing.  */
  predicate NoEmptyRepeat(c: Code, nullable: seq<bool>)
    requires CodeOk(c) && |nullable| == |c.nodes|
  {
    forall n :: 0 <= n < |c.nodes| && c.nodes[n].Repeat? ==> !nullable[c.nodes[n].child]
  }

  /** Every iteration of every repeat in a checked table consumes at least one token.  */
  lemma RepeatConsumes(w: World, a: Answer, n: nat, pos: nat, fuel: nat)
    requires Setting(w, a) && NoEmptyRepeat(w.code, a.nullable)
    requires n < |w.code.nodes| && w.code.nodes[n].Repeat? && pos <= |w.tokens|
    ensures var r := Run(w, w.code.nodes[n].child, pos, fuel);
            r.Some? && r.value.Match? ==> r.value.end > pos
  {
    FirstSound(w, a, w.code.nodes[n].child, pos, fuel);
  }

  /** How many times in a row the body matches from `pos`.  */
  function Rounds(w: World, child: nat, pos: nat, fuel: nat): (count: nat)
    requires w.Ok() && child < |w.code.nodes| && pos <= |w.tokens|
    decreases |w.tokens| - pos
  {
    var r := Run(w, child, pos, fuel);
    if r.Some? && r.value.Match? && r.value.end > pos then 1 + Rounds(w, child, r.value.end, fuel) else 0
  }

  /** A repeat goes round at most as often as there are tokens left, and when its body always answers
      it answers too.  */
  lemma {:induction false} RepeatBounded(w: World, a: Answer, n: nat, pos: nat, fuel: nat)
    requires Setting(w, a) && NoEmptyRepeat(w.code, a.nullable)
    requires n < |w.code.nodes| && w.code.nodes[n].Repeat? && pos <= |w.tokens|
    ensures Rounds(w, w.code.nodes[n].child, pos, fuel) <= |w.tokens| - pos
    ensures (forall p :: pos <= p <= |w.tokens| ==> Run(w, w.code.nodes[n].child, p, fuel).Some?)
            ==> RunMore(w, w.code.nodes[n].child, pos, fuel).Some?
    decreases |w.tokens| - pos
  {
    var child := w.code.nodes[n].child;
    RepeatConsumes(w, a, n, pos, fuel);
    var r := Run(w, child, pos, fuel);
    if r.Some? && r.value.Match? {
      RepeatBounded(w, a, n, r.value.end, fuel);
    }
  }

  // ---------------------------------------------------------------------------------------------
  // No left recursion

  /** The children of a sequence that can be tried before anything is consumed rank below it.  */
  predicate LeadersBelow(kids: seq<nat>, nullable: seq<bool>, rank: seq<nat>, bound: nat)
    requires Within(kids, |nullable|) && |rank| == |nullable|
  {
    kids != [] ==>
      && rank[kids[0]] < bound
      && (nullable[kids[0]] ==> LeadersBelow(kids[1..], nullable, rank, bound))
  }

  /** A ranking of the nodes that falls along every step that consumes nothing.  */
  ghost predicate Ranked(c: Code, nullable: seq<bool>, rank: seq<nat>)
    requires CodeOk(c) && |nullable| == |c.nodes|
  {
    |rank| == |c.nodes| &&
    forall n :: 0 <= n < |c.nodes| ==>
      match c.nodes[n]
      case Rule(id) => rank[c.rules[id].root] < rank[n]
      case Sequence(start, len) => LeadersBelow(Span(c, start, len), nullable, rank, rank[n])
      case Choice(start, len) =>
        var kids := Span(c, start, len);
        forall i :: 0 <= i < |kids| ==> rank[kids[i]] < rank[n]
      case Optional(child) => rank[child] < rank[n]
      case Repeat(child) => rank[child] < rank[n]
      case _ => true
  }

  ghost predicate Certified(w: World, a: Answer, rank: seq<nat>, top: nat) {
    && Setting(w, a)
    && NoEmptyRepeat(w.code, a.nullable)
    && Ranked(w.code, a.nullable, rank)
    && forall n :: 0 <= n < |rank| ==> rank[n] <= top
  }

  /** Enough nesting for a node of rank `r` at `pos`.  */
  function Depth(w: World, pos: nat, r: nat, top: nat): (d: nat)
    requires pos <= |w.tokens|
    ensures d > r
  {
    (|w.tokens| - pos) * (top + 1) + r + 1
  }

  lemma DepthGrows(w: World, pos: nat, r: nat, s: nat, top: nat)
    requires pos <= |w.tokens| && r <= s
    ensures Depth(w, pos, r, top) <= Depth(w, pos, s, top)
  {}

  lemma DepthLater(w: World, pos: nat, later: nat, r: nat, top: nat)
    requires pos < later <= |w.tokens| && r <= top
    ensures Depth(w, later, r, top) <= (|w.tokens| - pos) * (top + 1)
  {
    var left, right := |w.tokens| - pos, |w.tokens| - later;
    assert right + 1 <= left;
    assert (right + 1) * (top + 1) <= left * (top + 1);
  }

  /** Without left recursion every match answers, within a depth known before it starts.  */
  lemma {:induction false} RankedAnswers(w: World, a: Answer, rank: seq<nat>, top: nat, n: nat, pos: nat, fuel: nat)
    requires Certified(w, a, rank, top) && n < |w.code.nodes| && pos <= |w.tokens|
    requires fuel >= Depth(w, pos, rank[n], top)
    ensures Run(w, n, pos, fuel).Some?
    decreases fuel, 3, 0
  {
    if !w.Blocked(n, pos) {
      var less := fuel - 1;
      match w.code.nodes[n]
      case Rule(id) => RankedAnswers(w, a, rank, top, w.code.rules[id].root, pos, less);
      case Sequence(start, len) =>
        SequenceAnswers(w, a, rank, top, Span(w.code, start, len), pos, pos, rank[n], less);
      case Choice(start, len) =>
        ChoiceAnswers(w, a, rank, top, Span(w.code, start, len), pos, rank[n], less);
      case Optional(child) => RankedAnswers(w, a, rank, top, child, pos, less);
      case Repeat(child) =>
        forall p | pos <= p <= |w.tokens| ensures Run(w, child, p, less).Some? {
          if p > pos {
            DepthLater(w, pos, p, rank[child], top);
          }
          RankedAnswers(w, a, rank, top, child, p, less);
        }
        RepeatConsumes(w, a, n, pos, less);
        var r := Run(w, child, pos, less).value;
        if r.Match? {
          RepeatBounded(w, a, n, r.end, less);
        }
      case _ =>
    }
  }

  lemma {:induction false} SequenceAnswers(
      w: World, a: Answer, rank: seq<nat>, top: nat,
      kids: seq<nat>, from: nat, pos: nat, bound: nat, fuel: nat)
    requires Certified(w, a, rank, top) && NodesIn(w, kids) && from <= pos <= |w.tokens|
    requires pos == from ==> LeadersBelow(kids, a.nullable, rank, bound)
    requires fuel >= (|w.tokens| - from) * (top + 1) + bound
    ensures RunSequence(w, kids, pos, fuel).Some?
    decreases fuel, 4, |kids|
  {
    if kids != [] {
      if pos > from {
        DepthLater(w, from, pos, rank[kids[0]], top);
      }
      RankedAnswers(w, a, rank, top, kids[0], pos, fuel);
      FirstSound(w, a, kids[0], pos, fuel);
      var r := Run(w, kids[0], pos, fuel).value;
      if r.Match? {
        SequenceAnswers(w, a, rank, top, kids[1..], from, r.end, bound, fuel);
      }
    }
  }

  lemma {:induction false} ChoiceAnswers(
      w: World, a: Answer, rank: seq<nat>, top: nat, kids: seq<nat>, pos: nat, bound: nat, fuel: nat)
    requires Certified(w, a, rank, top) && NodesIn(w, kids) && pos <= |w.tokens|
    requires forall i :: 0 <= i < |kids| ==> rank[kids[i]] < bound
    requires fuel >= (|w.tokens| - pos) * (top + 1) + bound
    ensures RunChoice(w, kids, pos, fuel).Some?
    decreases fuel, 4, |kids|
  {
    if kids != [] {
      RankedAnswers(w, a, rank, top, kids[0], pos, fuel);
      ChoiceAnswers(w, a, rank, top, kids[1..], pos, bound, fuel);
    }
  }

  /** On a table without left recursion the filter changes nothing at all.  */
  lemma FilterIsInvisible(w: World, a: Answer, rank: seq<nat>, top: nat, n: nat, pos: nat, fuel: nat)
    requires Plain(w, a) && Certified(w, a, rank, top) && n < |w.code.nodes| && pos <= |w.tokens|
    requires fuel >= Depth(w, pos, rank[n], top)
    ensures Run(w, n, pos, fuel).Some?
    ensures Run(Filtered(w, a), n, pos, fuel) == Run(w, n, pos, fuel)
  {
    RankedAnswers(w, a, rank, top, n, pos, fuel);
    FilterRefines(w, a, n, pos, fuel);
  }

  // ---------------------------------------------------------------------------------------------
  // ... and with it, it can: the filter may answer where plain matching never does.

  /** The rules `A <- A`, `Program <- A / StringLiteral` and `TopLevelStatement <- StringLiteral`, with
      `StringLiteral` overridden by the string matcher.  */
  const LeftRecursive: Code := Code(
    [Rule(0), Rule(0), Rule(2), Choice(0, 2), Node.String, Rule(2)], [1, 2],
    [Compiled("A", 0, false), Compiled("Program", 3, false), Compiled("StringLiteral", 4, false),
     Compiled("TopLevelStatement", 5, false)], [], [])

  /** Its least nullability and FIRST sets: `A` starts with nothing, the others with a string.  */
  const LeftAnswer: Answer := Answer(
    [false, false, false, false, false, false], [{}, {}, {2}, {2}, {2}, {2}])

  lemma {:induction false} LeftRecursionNeverAnswers(w: World, fuel: nat)
    requires w.code == LeftRecursive && w.guard.Off? && w.Ok()
    ensures Run(w, 0, 0, fuel).None?
  {
    if fuel > 0 {
      LeftRecursionNeverAnswers(w, fuel - 1);
    }
  }

  lemma LeftAnswerSolves()
    ensures Solution(LeftRecursive, LeftAnswer)
  {
    assert Span(LeftRecursive, 0, 2) == [1, 2];
    assert ChoiceFirst([1, 2], LeftAnswer) == {2} by {
      assert 2 in LeftAnswer.first[[1, 2][1]];
    }
  }

  lemma PlainNeverAnswers(w: World, fuel: nat)
    requires w.code == LeftRecursive && w.guard.Off? && w.Ok()
    ensures Run(w, 3, 0, fuel).None?
  {
    if fuel > 1 {
      assert Span(LeftRecursive, 0, 2) == [1, 2];
      LeftRecursionNeverAnswers(w, fuel - 2);
      assert RunNode(w, Rule(0), 0, fuel - 2).None?;
      assert Run(w, 1, 0, fuel - 1).None?;
      assert RunChoice(w, [1, 2], 0, fuel - 1).None?;
    } else if fuel == 1 {
      assert Span(LeftRecursive, 0, 2) == [1, 2];
      assert Run(w, 1, 0, 0).None?;
    }
  }

  /** Plain matching of `Program` on a string never ends; filtered matching succeeds.  So the
      hypothesis that plain matching answers cannot be dropped from `FilterRefines`.  */
  lemma FilterAnswersMore(s: Token)
    requires s.kind == Kind.String && s.keyword == NOT_A_KEYWORD
    ensures var w := World(LeftRecursive, Off, [s]);
            && Solution(w.code, LeftAnswer) && Plain(w, LeftAnswer)
            && (forall fuel: nat :: Run(w, 3, 0, fuel).None?)
            && Run(Filtered(w, LeftAnswer), 3, 0, 3) == Some(Match(1, [Tree(2, 0, 1, [])]))
  {
    LeftAnswerSolves();
    var w := World(LeftRecursive, Off, [s]);
    forall fuel: nat ensures Run(w, 3, 0, fuel).None? {
      PlainNeverAnswers(w, fuel);
    }
    FilteredAnswers(s);
  }

  lemma FilteredAnswers(s: Token)
    requires s.kind == Kind.String && s.keyword == NOT_A_KEYWORD
    ensures var v := Filtered(World(LeftRecursive, Off, [s]), LeftAnswer);
            v.Ok() && Run(v, 3, 0, 3) == Some(Match(1, [Tree(2, 0, 1, [])]))
  {
    LeftAnswerSolves();
    var v := Filtered(World(LeftRecursive, Off, [s]), LeftAnswer);
    assert Span(LeftRecursive, 0, 2) == [1, 2];
    assert RunEnd([s], 1) == 1;
    assert Run(v, 4, 0, 1) == Some(Match(1, []));
    assert RunNode(v, Rule(2), 0, 1) == Some(Match(1, [Tree(2, 0, 1, [])]));
    assert Run(v, 2, 0, 2) == Some(Match(1, [Tree(2, 0, 1, [])]));
    assert [1, 2][1..] == [2];
    assert RunChoice(v, [1, 2], 0, 2) == RunChoice(v, [2], 0, 2) == Run(v, 2, 0, 2);
  }
}
