/** Parsing a token vector from a named rule: the matcher's answer against plain parsing expression
    matching, with the filter on or off.  */
module Parse {
  import opened RuleTable
  import opened Peg
  import opened First
  import opened Filter
  import opened Progress
  import opened Arena
  import opened MatcherInvariant
  import opened Matcher

  /** What a generated table satisfies.  */
  ghost predicate TableOk(t: Table) {
    && CodeOk(t.code) && KeywordsOk(t.code) && Distinct(t.code.symbols)
    && Solution(t.code, AnswerOf(t))
    && NoEmptyRepeat(t.code, t.nullable)
  }

  function AnswerOf(t: Table): (a: Answer) {
    Answer(t.nullable, t.first)
  }

  function WorldOf(t: Table, tokens: seq<Token>, filter: bool): (w: World) {
    World(t.code, if filter then On(t.nullable, t.first) else Off, tokens)
  }

  datatype Report =
    | Parsed(nodes: seq<ParseNode>, root: nat)
    | SyntaxError
    | TooDeep

  /** Everything has been consumed, short of the end of input token itself.  */
  predicate AtEnd(tokens: seq<Token>, end: nat) {
    end >= |tokens| || tokens[end].kind == Kind.EndOfInput
  }

  /** A match outcome as a parse of everything: the one tree, if it reaches the end.  */
  ghost predicate Parses(tokens: seq<Token>, o: Outcome, t: Tree) {
    o == Match(t.end, [t]) && AtEnd(tokens, t.end)
  }

  /** The report is what the semantics says: its tree when there is one, an error when there is not,
      and `TooDeep` only when no match nests within the cap.  */
  ghost predicate Reports(w: World, root: nat, r: Report)
    requires w.Ok() && root < |w.code.rules|
  {
    match r
    case Parsed(nodes, at) =>
      exists fuel: nat, t: Tree ::
        RunNode(w, Rule(root), 0, fuel).Some? && Parses(w.tokens, RunNode(w, Rule(root), 0, fuel).value, t)
        && Denotes(nodes, at, t)
    case SyntaxError =>
      exists fuel: nat ::
        RunNode(w, Rule(root), 0, fuel).Some?
        && forall t: Tree :: !Parses(w.tokens, RunNode(w, Rule(root), 0, fuel).value, t)
    case TooDeep =>
      forall fuel: nat :: fuel <= MAX_DEPTH ==> RunNode(w, Rule(root), 0, fuel).None?
  }

  lemma TableRepeatsConsume(t: Table, tokens: seq<Token>, filter: bool)
    requires TableOk(t)
    ensures RepeatsConsume(WorldOf(t, tokens, filter))
  {
    var w := WorldOf(t, tokens, filter);
    forall n, p: nat, k: nat | 0 <= n < |w.code.nodes| && w.code.nodes[n].Repeat? && p <= |w.tokens|
      ensures Consumed(p, Run(w, w.code.nodes[n].child, p, k))
    {
      RepeatConsumes(w, AnswerOf(t), n, p, k);
    }
  }

  /** Parses tokens from a rule.  */
  method ParseTokens(t: Table, tokens: seq<Token>, root: nat, filter: bool) returns (r: Report)
    requires TableOk(t) && root < |t.code.rules|
    ensures Reports(WorldOf(t, tokens, filter), root, r)
  {
    var w := WorldOf(t, tokens, filter);
    TableRepeatsConsume(t, tokens, filter);
    var m := new Matcher(w, root);
    var result, deep := m.Run(Enter(w.code.rules[root].root));
    if deep {
      return TooDeep;
    }
    ghost var o := if result.Nil? then Fail else Match(m.pos, [m.g.sh.trees[result.index]]);
    assert RunNode(w, Rule(root), 0, m.g.enough) == Some(o);
    if result.Nil? || !(m.pos >= |tokens| || tokens[m.pos].kind == Kind.EndOfInput) {
      return SyntaxError;
    }
    ShadowDenotes(m.arena, m.g.sh, result.index);
    assert Parses(tokens, o, m.g.sh.trees[result.index]);
    return Parsed(m.arena, result.index);
  }

  lemma FuelAgrees(w: World, root: nat, fuel: nat, other: nat)
    requires w.Ok() && root < |w.code.rules|
    requires RunNode(w, Rule(root), 0, fuel).Some? && RunNode(w, Rule(root), 0, other).Some?
    ensures RunNode(w, Rule(root), 0, fuel) == RunNode(w, Rule(root), 0, other)
  {
    if fuel <= other {
      NodeMonotone(w, Rule(root), 0, fuel, other);
    } else {
      NodeMonotone(w, Rule(root), 0, other, fuel);
    }
  }

  /** The report tells an outcome: its nodes denote exactly the tree that parses everything, and it is an
      error exactly when there is none.  */
  ghost predicate Tells(tokens: seq<Token>, o: Outcome, r: Report) {
    && (forall tree: Tree :: r.Parsed? && Denotes(r.nodes, r.root, tree) <==> Parses(tokens, o, tree))
    && (r.SyntaxError? <==> forall tree: Tree :: !Parses(tokens, o, tree))
  }

  /** A report that gives an answer tells whatever outcome matching comes to.  */
  lemma ReportTells(w: World, root: nat, r: Report, fuel: nat)
    requires w.Ok() && root < |w.code.rules| && Reports(w, root, r) && RunNode(w, Rule(root), 0, fuel).Some?
    requires fuel <= MAX_DEPTH || !r.TooDeep?
    ensures Tells(w.tokens, RunNode(w, Rule(root), 0, fuel).value, r)
  {
    var o := RunNode(w, Rule(root), 0, fuel).value;
    if r.Parsed? {
      var other: nat, tree: Tree :|
        RunNode(w, Rule(root), 0, other).Some? && Parses(w.tokens, RunNode(w, Rule(root), 0, other).value, tree)
        && Denotes(r.nodes, r.root, tree);
      FuelAgrees(w, root, fuel, other);
      forall also: Tree | Denotes(r.nodes, r.root, also) ensures Parses(w.tokens, o, also) {
        DenotesUnique(r.nodes, r.root, tree, also);
      }
    } else if r.SyntaxError? {
      var other: nat :|
        RunNode(w, Rule(root), 0, other).Some?
        && forall t: Tree :: !Parses(w.tokens, RunNode(w, Rule(root), 0, other).value, t);
      FuelAgrees(w, root, fuel, other);
    }
  }

  /** The optimisations are invisible.  Whenever plain matching, without filter, memo or stack, comes
      to an outcome, the report tells exactly that outcome, unless it gives up; and it does not give up on
      an outcome within the depth cap.  Only the filter asks for tokens that are keyed.  */
  lemma ReportIsPlain(t: Table, tokens: seq<Token>, root: nat, filter: bool, r: Report, fuel: nat)
    requires TableOk(t) && root < |t.code.rules| && (filter ==> AllWellKeyed(t.code, tokens))
    requires Reports(WorldOf(t, tokens, filter), root, r)
    requires RunNode(WorldOf(t, tokens, false), Rule(root), 0, fuel).Some?
    requires fuel <= MAX_DEPTH || !r.TooDeep?
    ensures Tells(tokens, RunNode(WorldOf(t, tokens, false), Rule(root), 0, fuel).value, r)
  {
    hide Reports, Tells;
    var plain, w := WorldOf(t, tokens, false), WorldOf(t, tokens, filter);
    if filter {
      FilterRefinesNode(plain, AnswerOf(t), Rule(root), 0, fuel);
    }
    assert RunNode(w, Rule(root), 0, fuel) == RunNode(plain, Rule(root), 0, fuel);
    ReportTells(w, root, r, fuel);
  }

  /** Two runs over the same tokens, one with the filter and one without, agree on the tree: when plain
      matching answers within the cap, and past it as long as neither gives up.  */
  lemma FilterOnAndOffAgree(t: Table, tokens: seq<Token>, root: nat, on: Report, off: Report, fuel: nat)
    requires TableOk(t) && root < |t.code.rules| && AllWellKeyed(t.code, tokens)
    requires Reports(WorldOf(t, tokens, true), root, on) && Reports(WorldOf(t, tokens, false), root, off)
    requires RunNode(WorldOf(t, tokens, false), Rule(root), 0, fuel).Some?
    requires fuel <= MAX_DEPTH || (!on.TooDeep? && !off.TooDeep?)
    ensures on.Parsed? <==> off.Parsed?
    ensures on.SyntaxError? <==> off.SyntaxError?
    ensures on.Parsed? ==> forall tree: Tree ::
              Denotes(on.nodes, on.root, tree) <==> Denotes(off.nodes, off.root, tree)
  {
    hide Reports, Denotes;
    ReportIsPlain(t, tokens, root, true, on, fuel);
    ReportIsPlain(t, tokens, root, false, off, fuel);
  }

  /** Without the filter an answer is one that plain matching gives.  */
  lemma UnfilteredAnswers(t: Table, tokens: seq<Token>, root: nat, r: Report)
    requires TableOk(t) && root < |t.code.rules| && Reports(WorldOf(t, tokens, false), root, r) && !r.TooDeep?
    ensures exists fuel: nat :: RunNode(WorldOf(t, tokens, false), Rule(root), 0, fuel).Some?
  {
    hide TableOk;
  }

  lemma TableCertified(t: Table, tokens: seq<Token>, filter: bool, rank: seq<nat>, top: nat)
    requires TableOk(t)
    requires Ranked(t.code, t.nullable, rank) && forall n :: 0 <= n < |rank| ==> rank[n] <= top
    ensures Certified(WorldOf(t, tokens, filter), AnswerOf(t), rank, top) && |rank| == |t.code.nodes|
  {
    hide NoEmptyRepeat;
  }

  ghost predicate Rankable(t: Table)
    requires TableOk(t)
  {
    exists rank: seq<nat> :: Ranked(t.code, t.nullable, rank)
  }

  lemma {:induction false} Highest(rank: seq<nat>) returns (top: nat)
    ensures forall n :: 0 <= n < |rank| ==> rank[n] <= top
  {
    top := 0;
    if rank != [] {
      var rest := Highest(rank[1..]);
      top := if rest < rank[0] then rank[0] else rest;
      assert forall n :: 0 < n < |rank| ==> rank[n] == rank[1..][n - 1];
    }
  }

  /** On a table without left recursion matching always comes to an outcome, within a depth known
      beforehand.  */
  lemma RankedOutcome(t: Table, tokens: seq<Token>, root: nat, filter: bool, rank: seq<nat>, top: nat)
    requires TableOk(t) && root < |t.code.rules|
    requires Ranked(t.code, t.nullable, rank) && forall n :: 0 <= n < |rank| ==> rank[n] <= top
    ensures var w := WorldOf(t, tokens, filter); RunNode(w, Rule(root), 0, Depth(w, 0, top, top)).Some?
  {
    hide NoEmptyRepeat, Ranked, Solution, Closed, Depth;
    var w := WorldOf(t, tokens, filter);
    var n := t.code.rules[root].root;
    TableCertified(t, tokens, filter, rank, top);
    DepthGrows(w, 0, rank[n], top, top);
    RankedAnswers(w, AnswerOf(t), rank, top, n, 0, Depth(w, 0, top, top));
  }

  /** So on such a table every report that does not give up tells the plain outcome, filter on or off.  */
  lemma RankedReportIsPlain(t: Table, tokens: seq<Token>, root: nat, filter: bool, r: Report) returns (fuel: nat)
    requires TableOk(t) && root < |t.code.rules| && (filter ==> AllWellKeyed(t.code, tokens)) && Rankable(t)
    requires Reports(WorldOf(t, tokens, filter), root, r)
    ensures RunNode(WorldOf(t, tokens, false), Rule(root), 0, fuel).Some?
    ensures !r.TooDeep? ==> Tells(tokens, RunNode(WorldOf(t, tokens, false), Rule(root), 0, fuel).value, r)
  {
    hide Reports, Tells, Ranked, Depth, AllWellKeyed;
    var rank: seq<nat> :| Ranked(t.code, t.nullable, rank);
    var top := Highest(rank);
    RankedOutcome(t, tokens, root, false, rank, top);
    fuel := Depth(WorldOf(t, tokens, false), 0, top, top);
    if !r.TooDeep? {
      ReportIsPlain(t, tokens, root, filter, r, fuel);
    }
  }

  /** On a table without left recursion, and tokens few enough that the depth needed is under the cap,
      a parse never gives up: it reports the plain outcome.  */
  lemma RankedTablesAlwaysReport(t: Table, tokens: seq<Token>, root: nat, filter: bool, r: Report,
                                 rank: seq<nat>, top: nat)
    requires TableOk(t) && root < |t.code.rules|
    requires Reports(WorldOf(t, tokens, filter), root, r)
    requires Ranked(t.code, t.nullable, rank) && forall n :: 0 <= n < |rank| ==> rank[n] <= top
    requires Depth(WorldOf(t, tokens, filter), 0, top, top) <= MAX_DEPTH
    ensures !r.TooDeep?
  {
    hide NoEmptyRepeat, Ranked, Solution, Closed, Depth, Denotes, Parses;
    RankedOutcome(t, tokens, root, filter, rank, top);
  }
}
