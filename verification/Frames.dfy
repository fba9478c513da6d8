/** Suspended nodes: what a frame of the matcher's stack has established about the match of its node,
    and what it does when the child it waits for settles.  */
module Frames {
  import opened RuleTable
  import opened Peg
  import opened Arena

  /** A node waiting for one of its children.  `step` counts the children that have settled, or the rounds
      of a repeat; `mark` is where a repeat's last iteration ended.  */
  datatype Frame = Frame(node: Node, start: nat, step: nat, mark: nat, head: Link, tail: Link)

  ghost predicate FrameOk(w: World, f: Frame) {
    && w.Ok() && f.node.Composite() && NodeOk(w.code, f.node)
    && f.start <= f.mark <= |w.tokens|
    && (f.node.Sequence? || f.node.Choice? ==> f.step < f.node.len)
    && (!f.node.Repeat? ==> f.mark == f.start)
    && (f.node.Repeat? && f.step == 0 ==> f.mark == f.start)
  }

  /** The child a frame waits for.  */
  function Pending(w: World, f: Frame): (n: nat)
    requires FrameOk(w, f)
    ensures n < |w.code.nodes|
  {
    match f.node
    case Rule(id) => w.code.rules[id].root
    case Sequence(start, _) => w.code.children[start + f.step]
    case Choice(start, _) => w.code.children[start + f.step]
    case Optional(child) => child
    case Repeat(child) => child
  }

  /** The children a frame has yet to try, the pending one first.  */
  ghost function Ahead(w: World, f: Frame): (kids: seq<nat>)
    requires FrameOk(w, f) && (f.node.Sequence? || f.node.Choice?)
    ensures NodesIn(w, kids) && kids != [] && kids[0] == Pending(w, f)
  {
    var span := Span(w.code, f.node.start, f.node.len);
    assert forall i :: 0 <= i < |span| ==> span[i] == w.code.children[f.node.start + i];
    span[f.step..]
  }

  /** The match of a frame's node from here on, its pending child being entered at `pos`.  */
  ghost function Rest(w: World, f: Frame, pos: nat, fuel: nat): (r: Option<Outcome>)
    requires FrameOk(w, f) && pos <= |w.tokens|
  {
    match f.node
    case Sequence(_, _) => RunSequence(w, Ahead(w, f), pos, fuel)
    case Choice(_, _) => RunChoice(w, Ahead(w, f), pos, fuel)
    case Repeat(child) =>
      if f.step == 0 then RunNode(w, f.node, f.start, fuel) else RunMore(w, child, pos, fuel)
    case _ => RunNode(w, f.node, f.start, fuel)
  }

  /** The match of `node` at `pos` has the outcome `o` for every fuel from `enough` on.  */
  ghost predicate Settled(w: World, node: Node, pos: nat, enough: nat, o: Outcome)
    requires w.Ok() && NodeOk(w.code, node) && pos <= |w.tokens|
  {
    forall k: nat :: k >= enough ==> RunNode(w, node, pos, k) == Some(o)
  }

  ghost predicate SettledAt(w: World, n: nat, pos: nat, enough: nat, o: Outcome)
    requires w.Ok() && n < |w.code.nodes| && pos <= |w.tokens|
  {
    forall k: nat :: k >= enough ==> Run(w, n, pos, k) == Some(o)
  }

  /** What a frame knows: the match of its node is the trees collected so far followed by the rest,
      and whenever the whole answers so does the rest.  */
  ghost predicate Advancing(w: World, f: Frame, pos: nat, forest: seq<Tree>, enough: nat) {
    && FrameOk(w, f) && pos <= |w.tokens|
    && (f.node.Repeat? ==> pos == f.mark)
    && (!f.node.Repeat? && !f.node.Sequence? ==> pos == f.start && forest == [])
    && (f.node.Repeat? && f.step == 0 ==> forest == [])
    && (forall k: nat :: k >= enough ==>
          RunNode(w, f.node, f.start, k) == Prepend(forest, Rest(w, f, pos, k)))
    && (forall k: nat :: RunNode(w, f.node, f.start, k).Some? ==> Rest(w, f, pos, k).Some?)
  }

  lemma PrependNothing(o: Option<Outcome>)
    ensures Prepend([], o) == o
  {
    if o.Some? && o.value.Match? {
      assert [] + o.value.forest == o.value.forest;
    }
  }

  lemma PrependTwice(f: seq<Tree>, g: seq<Tree>, o: Option<Outcome>)
    ensures Prepend(f, Prepend(g, o)) == Prepend(f + g, o)
  {
    if o.Some? && o.value.Match? {
      assert f + (g + o.value.forest) == (f + g) + o.value.forest;
    }
  }

  /** A frame for a node just entered.  */
  lemma FreshFrame(w: World, node: Node, pos: nat, enough: nat)
    requires w.Ok() && node.Composite() && NodeOk(w.code, node) && pos <= |w.tokens|
    ensures Advancing(w, Frame(node, pos, 0, pos, Nil, Nil), pos, [], enough)
  {
    var f := Frame(node, pos, 0, pos, Nil, Nil);
    forall k: nat
      ensures RunNode(w, node, pos, k) == Rest(w, f, pos, k)
      ensures Prepend([], Rest(w, f, pos, k)) == Rest(w, f, pos, k)
    {
      PrependNothing(Rest(w, f, pos, k));
      if node.Sequence? || node.Choice? {
        assert Ahead(w, f) == Span(w.code, node.start, node.len);
      }
    }
  }

  /** More evidence is still evidence.  */
  lemma AdvancingLater(w: World, f: Frame, pos: nat, forest: seq<Tree>, enough: nat, more: nat)
    requires Advancing(w, f, pos, forest, enough) && enough <= more
    ensures Advancing(w, f, pos, forest, more)
  {}

  /** Where a frame's list starts and ends has no bearing on what it knows.  */
  lemma AdvancingRelinked(w: World, f: Frame, pos: nat, forest: seq<Tree>, enough: nat, head: Link, tail: Link)
    requires Advancing(w, f, pos, forest, enough)
    ensures Advancing(w, f.(head := head, tail := tail), pos, forest, enough)
  {
    var g := f.(head := head, tail := tail);
    forall k: nat ensures Rest(w, g, pos, k) == Rest(w, f, pos, k) {
      if f.node.Sequence? || f.node.Choice? {
        assert Ahead(w, g) == Ahead(w, f);
      }
    }
  }

  /** If a frame's node answers within `fuel`, so does the child it waits for.  */
  lemma PendingAnswers(w: World, f: Frame, pos: nat, forest: seq<Tree>, enough: nat, fuel: nat)
    requires Advancing(w, f, pos, forest, enough) && RunNode(w, f.node, f.start, fuel).Some?
    ensures Run(w, Pending(w, f), pos, fuel).Some?
  {
    assert Rest(w, f, pos, fuel).Some?;
  }

  lemma AgreesWithSettled(w: World, n: nat, pos: nat, enough: nat, o: Outcome, k: nat)
    requires w.Ok() && n < |w.code.nodes| && pos <= |w.tokens| && SettledAt(w, n, pos, enough, o)
    requires Run(w, n, pos, k).Some?
    ensures Run(w, n, pos, k) == Some(o)
  {
    var more := if k < enough then enough else k;
    RunMonotone(w, n, pos, k, more);
  }

  // ---------------------------------------------------------------------------------------------
  // The pending child matched

  /** A sequence moves on to its next child.  */
  lemma SequenceMoves(w: World, f: Frame, pos: nat, forest: seq<Tree>, enough: nat, end: nat, more: seq<Tree>)
    requires Advancing(w, f, pos, forest, enough) && f.node.Sequence? && f.step + 1 < f.node.len
    requires pos <= end <= |w.tokens| && SettledAt(w, Pending(w, f), pos, enough, Match(end, more))
    ensures Advancing(w, f.(step := f.step + 1), end, forest + more, enough)
  {
    var g := f.(step := f.step + 1);
    assert Ahead(w, f)[1..] == Ahead(w, g);
    forall k: nat | k >= enough
      ensures RunNode(w, f.node, f.start, k) == Prepend(forest + more, Rest(w, g, end, k))
    {
      assert Run(w, Pending(w, f), pos, k) == Some(Match(end, more));
      assert Rest(w, f, pos, k) == Prepend(more, Rest(w, g, end, k));
      PrependTwice(forest, more, Rest(w, g, end, k));
    }
    forall k: nat | RunNode(w, f.node, f.start, k).Some? ensures Rest(w, g, end, k).Some? {
      PendingAnswers(w, f, pos, forest, enough, k);
      AgreesWithSettled(w, Pending(w, f), pos, enough, Match(end, more), k);
    }
  }

  lemma SequenceEnds(w: World, f: Frame, pos: nat, forest: seq<Tree>, enough: nat, end: nat, more: seq<Tree>)
    requires Advancing(w, f, pos, forest, enough) && f.node.Sequence? && f.step + 1 == f.node.len
    requires pos <= end <= |w.tokens| && SettledAt(w, Pending(w, f), pos, enough, Match(end, more))
    ensures Settled(w, f.node, f.start, enough, Match(end, forest + more))
  {
    assert Ahead(w, f)[1..] == [];
    forall k: nat | k >= enough ensures RunNode(w, f.node, f.start, k) == Some(Match(end, forest + more)) {
      assert Run(w, Pending(w, f), pos, k) == Some(Match(end, more));
      assert RunSequence(w, Ahead(w, f), pos, k) == Prepend(more, Some(Match(end, [])));
      assert more + [] == more;
    }
  }

  /** A choice takes the alternative, an optional its child, a rule wraps what its body collected.  */
  lemma SingleEnds(w: World, f: Frame, pos: nat, forest: seq<Tree>, enough: nat, end: nat, more: seq<Tree>)
    requires Advancing(w, f, pos, forest, enough) && !f.node.Sequence? && !f.node.Repeat?
    requires pos <= end <= |w.tokens| && SettledAt(w, Pending(w, f), pos, enough, Match(end, more))
    ensures Settled(w, f.node, f.start, enough,
                    Match(end, if f.node.Rule? then [Tree(f.node.id, f.start, end, more)] else more))
  {
    forall k: nat | k >= enough
      ensures RunNode(w, f.node, f.start, k)
           == Some(Match(end, if f.node.Rule? then [Tree(f.node.id, f.start, end, more)] else more))
    {
      assert Run(w, Pending(w, f), pos, k) == Some(Match(end, more));
      PrependNothing(Rest(w, f, pos, k));
    }
  }

  /** A repeat goes round again.  */
  lemma RepeatMoves(w: World, f: Frame, pos: nat, forest: seq<Tree>, enough: nat, end: nat, more: seq<Tree>)
    requires Advancing(w, f, pos, forest, enough) && f.node.Repeat?
    requires pos < end <= |w.tokens| && SettledAt(w, Pending(w, f), pos, enough, Match(end, more))
    ensures Advancing(w, f.(step := f.step + 1, mark := end), end, forest + more, enough)
  {
    var g := f.(step := f.step + 1, mark := end);
    forall k: nat | k >= enough
      ensures RunNode(w, f.node, f.start, k) == Prepend(forest + more, Rest(w, g, end, k))
    {
      assert Run(w, Pending(w, f), pos, k) == Some(Match(end, more));
      assert Rest(w, f, pos, k) == Prepend(more, Rest(w, g, end, k));
      PrependTwice(forest, more, Rest(w, g, end, k));
    }
    forall k: nat | RunNode(w, f.node, f.start, k).Some? ensures Rest(w, g, end, k).Some? {
      PendingAnswers(w, f, pos, forest, enough, k);
      AgreesWithSettled(w, Pending(w, f), pos, enough, Match(end, more), k);
    }
  }

  // ---------------------------------------------------------------------------------------------
  // The pending child failed

  lemma RuleOrSequenceFails(w: World, f: Frame, pos: nat, forest: seq<Tree>, enough: nat)
    requires Advancing(w, f, pos, forest, enough) && (f.node.Rule? || f.node.Sequence?)
    requires SettledAt(w, Pending(w, f), pos, enough, Fail)
    ensures Settled(w, f.node, f.start, enough, Fail)
  {
    forall k: nat | k >= enough ensures RunNode(w, f.node, f.start, k) == Some(Fail) {
      assert Run(w, Pending(w, f), pos, k) == Some(Fail);
      assert Rest(w, f, pos, k) == Some(Fail);
    }
  }

  /** A choice moves on to its next alternative.  */
  lemma ChoiceMoves(w: World, f: Frame, pos: nat, forest: seq<Tree>, enough: nat)
    requires Advancing(w, f, pos, forest, enough) && f.node.Choice? && f.step + 1 < f.node.len
    requires SettledAt(w, Pending(w, f), pos, enough, Fail)
    ensures Advancing(w, f.(step := f.step + 1), pos, forest, enough)
  {
    var g := f.(step := f.step + 1);
    assert Ahead(w, f)[1..] == Ahead(w, g);
    forall k: nat | k >= enough ensures Rest(w, f, pos, k) == Rest(w, g, pos, k) {
      assert Run(w, Pending(w, f), pos, k) == Some(Fail);
    }
    forall k: nat | RunNode(w, f.node, f.start, k).Some? ensures Rest(w, g, pos, k).Some? {
      PendingAnswers(w, f, pos, forest, enough, k);
      AgreesWithSettled(w, Pending(w, f), pos, enough, Fail, k);
    }
  }

  lemma ChoiceFails(w: World, f: Frame, pos: nat, forest: seq<Tree>, enough: nat)
    requires Advancing(w, f, pos, forest, enough) && f.node.Choice? && f.step + 1 == f.node.len
    requires SettledAt(w, Pending(w, f), pos, enough, Fail)
    ensures Settled(w, f.node, f.start, enough, Fail)
  {
    assert Ahead(w, f)[1..] == [];
    forall k: nat | k >= enough ensures RunNode(w, f.node, f.start, k) == Some(Fail) {
      assert Run(w, Pending(w, f), pos, k) == Some(Fail);
      assert RunChoice(w, Ahead(w, f), pos, k) == Some(Fail);
    }
  }

  /** A choice passes over the alternatives the filter rules out.  */
  lemma {:induction false} ChoiceSkips(w: World, f: Frame, pos: nat, forest: seq<Tree>, enough: nat, next: nat)
    requires Advancing(w, f, pos, forest, enough) && f.node.Choice? && 1 <= enough
    requires f.step <= next <= f.node.len
    requires var span := Span(w.code, f.node.start, f.node.len);
             forall i :: f.step <= i < next ==> span[i] < |w.code.nodes| && w.Blocked(span[i], pos)
    ensures next < f.node.len ==> Advancing(w, f.(step := next), pos, forest, enough)
    ensures next == f.node.len ==> Settled(w, f.node, f.start, enough, Fail)
    decreases next - f.step
  {
    if f.step < next {
      assert Pending(w, f) == Span(w.code, f.node.start, f.node.len)[f.step];
      BlockedSettles(w, Pending(w, f), pos);
      if f.step + 1 == f.node.len {
        ChoiceFails(w, f, pos, forest, enough);
      } else {
        ChoiceMoves(w, f, pos, forest, enough);
        ChoiceSkips(w, f.(step := f.step + 1), pos, forest, enough, next);
      }
    }
  }

  /** After an alternative fails, the next one the filter lets through.  */
  lemma ChoiceNext(w: World, f: Frame, pos: nat, enough: nat, next: nat)
    requires Advancing(w, f, pos, [], enough) && f.node.Choice? && 1 <= enough
    requires SettledAt(w, Pending(w, f), pos, enough, Fail)
    requires f.step < next <= f.node.len
    requires var span := Span(w.code, f.node.start, f.node.len);
             forall i :: f.step < i < next ==> span[i] < |w.code.nodes| && w.Blocked(span[i], pos)
    ensures next < f.node.len ==> Advancing(w, f.(step := next, head := Nil, tail := Nil), pos, [], enough)
    ensures next == f.node.len ==> Settled(w, f.node, f.start, enough, Fail)
  {
    if f.step + 1 == f.node.len {
      ChoiceFails(w, f, pos, [], enough);
    } else {
      ChoiceMoves(w, f, pos, [], enough);
      ChoiceSkips(w, f.(step := f.step + 1), pos, [], enough, next);
      if next < f.node.len {
        AdvancingRelinked(w, f.(step := next), pos, [], enough, Nil, Nil);
      }
    }
  }

  lemma OptionalSkips(w: World, f: Frame, pos: nat, forest: seq<Tree>, enough: nat)
    requires Advancing(w, f, pos, forest, enough) && f.node.Optional?
    requires SettledAt(w, Pending(w, f), pos, enough, Fail)
    ensures Settled(w, f.node, f.start, enough, Match(f.start, []))
  {}

  /** A repeat that never went round fails; one that did ends where the last iteration did.  */
  lemma RepeatEnds(w: World, f: Frame, pos: nat, forest: seq<Tree>, enough: nat)
    requires Advancing(w, f, pos, forest, enough) && f.node.Repeat?
    requires SettledAt(w, Pending(w, f), pos, enough, Fail)
    ensures Settled(w, f.node, f.start, enough, if f.step == 0 then Fail else Match(f.mark, forest))
  {
    forall k: nat | k >= enough
      ensures RunNode(w, f.node, f.start, k) == Some(if f.step == 0 then Fail else Match(f.mark, forest))
    {
      assert Run(w, Pending(w, f), pos, k) == Some(Fail);
      if f.step > 0 {
        assert Rest(w, f, pos, k) == Some(Match(f.mark, []));
        assert forest + [] == forest;
      }
    }
  }

  // ---------------------------------------------------------------------------------------------
  // Between a node and its index

  /** A node the filter rules out has settled before it is entered.  */
  lemma BlockedSettles(w: World, n: nat, pos: nat)
    requires w.Ok() && n < |w.code.nodes| && pos <= |w.tokens| && w.Blocked(n, pos)
    ensures SettledAt(w, n, pos, 1, Fail)
  {}

  lemma SettledInRange(w: World, n: nat, pos: nat, enough: nat, end: nat, forest: seq<Tree>)
    requires w.Ok() && n < |w.code.nodes| && pos <= |w.tokens|
    requires SettledAt(w, n, pos, enough, Match(end, forest))
    ensures pos <= end <= |w.tokens|
  {
    assert Run(w, n, pos, enough) == Some(Match(end, forest));
  }

  lemma TerminalSettles(w: World, n: nat, pos: nat)
    requires w.Ok() && n < |w.code.nodes| && pos <= |w.tokens| && !w.Blocked(n, pos)
    requires !w.code.nodes[n].Composite()
    ensures var end := TerminalEnd(w.code, w.tokens, w.code.nodes[n], pos);
            SettledAt(w, n, pos, 1, if end.Some? then Match(end.value, []) else Fail)
  {}

  lemma NodeSettles(w: World, n: nat, pos: nat, enough: nat, o: Outcome)
    requires w.Ok() && n < |w.code.nodes| && pos <= |w.tokens| && !w.Blocked(n, pos)
    requires Settled(w, w.code.nodes[n], pos, enough, o)
    ensures SettledAt(w, n, pos, enough + 1, o)
  {
    forall k: nat | k >= enough + 1 ensures Run(w, n, pos, k) == Some(o) {
      assert RunNode(w, w.code.nodes[n], pos, k - 1) == Some(o);
    }
  }
}
