/** What holds of the matcher's stack, arena and memo at every step, and what each kind of change
    does to it.  */
module MatcherInvariant {
  import opened RuleTable
  import opened Peg
  import opened Arena
  import opened Frames

  /** The cap on nesting: a parse that needs more frames is given up.  */
  const MAX_DEPTH: nat := 262_144

  datatype Memo = Empty | Failed | Stored(index: nat)

  datatype Action =
    | Enter(n: nat)
    | Succeed(head: Link, tail: Link)
    | Reject
    | Done(result: Link)

  // ---------------------------------------------------------------------------------------------
  // What the matcher is given

  /** No repeat has a body that matches without consuming.  */
  ghost predicate RepeatsConsume(w: World) {
    w.Ok() &&
    forall n, p: nat, k: nat :: 0 <= n < |w.code.nodes| && w.code.nodes[n].Repeat? && p <= |w.tokens| ==>
      Consumed(p, Run(w, w.code.nodes[n].child, p, k))
  }

  ghost predicate Consumed(pos: nat, r: Option<Outcome>) {
    r.Some? && r.value.Match? ==> pos < r.value.end
  }

  /** Memo rows are handed out one to a rule.  */
  ghost predicate SlotsOk(c: Code, slots: seq<Option<nat>>, rows: nat) {
    && |slots| == |c.rules|
    && (forall r :: 0 <= r < |slots| && slots[r].Some? ==> slots[r].value < rows)
    && (forall r, s :: 0 <= r < s < |slots| && slots[r].Some? && slots[s].Some? ==>
          slots[r].value != slots[s].value)
  }

  method BuildSlots(c: Code) returns (slots: seq<Option<nat>>, rows: nat)
    ensures SlotsOk(c, slots, rows)
    ensures forall r :: 0 <= r < |c.rules| ==> (slots[r].Some? <==> c.rules[r].memoized)
  {
    slots, rows := [], 0;
    for index := 0 to |c.rules|
      invariant |slots| == index
      invariant forall r :: 0 <= r < index ==> (slots[r].Some? <==> c.rules[r].memoized)
      invariant forall r :: 0 <= r < index && slots[r].Some? ==> slots[r].value < rows
      invariant forall r, s :: 0 <= r < s < index && slots[r].Some? && slots[s].Some? ==>
                  slots[r].value != slots[s].value
    {
      if c.rules[index].memoized {
        slots, rows := slots + [Some(rows)], rows + 1;
      } else {
        slots := slots + [None];
      }
    }
  }

  /** The memo is one flat array, a row per memoized rule and a column per position.  */
  function MemoIndex(w: World, slot: nat, pos: nat): (at: nat) {
    slot * (|w.tokens| + 1) + pos
  }

  lemma MemoIndexFits(w: World, slot: nat, rows: nat, pos: nat)
    requires slot < rows && pos <= |w.tokens|
    ensures MemoIndex(w, slot, pos) < rows * (|w.tokens| + 1)
  {
    var width := |w.tokens| + 1;
    assert (slot + 1) * width <= rows * width;
  }

  lemma MemoIndexInjective(w: World, s: nat, p: nat, t: nat, q: nat)
    requires p <= |w.tokens| && q <= |w.tokens| && MemoIndex(w, s, p) == MemoIndex(w, t, q)
    ensures s == t && p == q
  {
    var width := |w.tokens| + 1;
    assert s < t ==> (s + 1) * width <= t * width;
    assert t < s ==> (t + 1) * width <= s * width;
  }

  // ---------------------------------------------------------------------------------------------
  // The invariant

  /** What a memo entry claims about its rule at its position.  */
  ghost predicate EntryOk(w: World, rule: nat, pos: nat, e: Memo, trees: seq<Tree>, enough: nat)
    requires w.Ok() && rule < |w.code.rules| && pos <= |w.tokens|
  {
    match e
    case Empty => true
    case Failed => Settled(w, Rule(rule), pos, enough, Fail)
    case Stored(i) =>
      && i < |trees| && trees[i].rule == rule && trees[i].start == pos && pos <= trees[i].end <= |w.tokens|
      && Settled(w, Rule(rule), pos, enough, Match(trees[i].end, [trees[i]]))
  }

  ghost predicate MemoOk(w: World, slots: seq<Option<nat>>, rows: nat, memo: seq<Memo>,
                         trees: seq<Tree>, enough: nat)
  {
    && w.Ok() && SlotsOk(w.code, slots, rows) && |memo| == rows * (|w.tokens| + 1)
    && forall r, p: nat :: 0 <= r < |slots| && slots[r].Some? && p <= |w.tokens| ==>
         MemoIndex(w, slots[r].value, p) < |memo| &&
         EntryOk(w, r, p, memo[MemoIndex(w, slots[r].value, p)], trees, enough)
  }

  /** The proof's view of the stack: the open list of every frame, where its pending child was
      entered, and a fuel from which everything established so far holds.  */
  datatype Ghosts = Ghosts(sh: Shadow, open: seq<seq<nat>>, entered: seq<nat>, enough: nat)

  ghost predicate FramesWell(w: World, stack: seq<Frame>, entered: seq<nat>) {
    && |stack| == |entered|
    && forall i :: 0 <= i < |stack| ==> FrameOk(w, stack[i]) && entered[i] <= |w.tokens|
  }

  /** Frame `i` is the node frame `i - 1` waits for, entered where it waits.  */
  ghost predicate NestedAt(w: World, root: nat, stack: seq<Frame>, entered: seq<nat>, i: nat)
    requires FramesWell(w, stack, entered) && i < |stack|
  {
    if i == 0 then stack[0].node == Rule(root) && stack[0].start == 0
    else
      var n := Pending(w, stack[i - 1]);
      stack[i].node == w.code.nodes[n] && stack[i].start == entered[i - 1] && !w.Blocked(n, entered[i - 1])
  }

  ghost predicate AdvancingAt(w: World, stack: seq<Frame>, trees: seq<Tree>, open: seq<seq<nat>>,
                              entered: seq<nat>, enough: nat, i: nat)
    requires i < |stack| == |open| == |entered|
  {
    Inside(open[i], |trees|) && Advancing(w, stack[i], entered[i], Forest(trees, open[i]), enough)
  }

  /** What the frames know of the match.  */
  ghost predicate LogicOk(w: World, root: nat, stack: seq<Frame>, trees: seq<Tree>,
                          open: seq<seq<nat>>, entered: seq<nat>, enough: nat)
  {
    && w.Ok() && root < |w.code.rules|
    && FramesWell(w, stack, entered) && |open| == |stack|
    && (forall i :: 0 <= i < |stack| ==> AdvancingAt(w, stack, trees, open, entered, enough, i))
    && (forall i :: 0 <= i < |stack| ==> NestedAt(w, root, stack, entered, i))
  }

  /** The open lists of the frames.  */
  ghost predicate ListsOk(arena: seq<ParseNode>, stack: seq<Frame>, sh: Shadow, open: seq<seq<nat>>) {
    && ArenaOk(arena, sh) && |open| == |stack|
    && forall i :: 0 <= i < |stack| ==> ListOk(arena, sh, open[i], stack[i].head, stack[i].tail, i)
  }

  ghost predicate StackOk(w: World, root: nat, arena: seq<ParseNode>, stack: seq<Frame>, g: Ghosts) {
    && LogicOk(w, root, stack, g.sh.trees, g.open, g.entered, g.enough)
    && ListsOk(arena, stack, g.sh, g.open)
  }

  /** What the frame on top waits for has come out as `o`; with no frame left, so has the whole.  */
  ghost predicate CameOut(w: World, root: nat, stack: seq<Frame>, entered: seq<nat>, enough: nat, o: Outcome)
    requires w.Ok() && root < |w.code.rules| && FramesWell(w, stack, entered)
  {
    if stack == [] then Settled(w, Rule(root), 0, enough, o)
    else SettledAt(w, Pending(w, stack[|stack| - 1]), entered[|stack| - 1], enough, o)
  }

  /** The current action is justified: `cur` is the list a success carries.  */
  ghost predicate ActionOk(w: World, root: nat, arena: seq<ParseNode>, stack: seq<Frame>, g: Ghosts,
                           pos: nat, cur: seq<nat>, a: Action)
  {
    && StackOk(w, root, arena, stack, g) && |stack| <= MAX_DEPTH && pos <= |w.tokens|
    && match a
       case Enter(n) =>
         stack != [] && n == Pending(w, stack[|stack| - 1]) && pos == g.entered[|stack| - 1]
       case Succeed(head, tail) =>
         && ListOk(arena, g.sh, cur, head, tail, |stack|)
         && CameOut(w, root, stack, g.entered, g.enough, Match(pos, Forest(g.sh.trees, cur)))
       case Reject => CameOut(w, root, stack, g.entered, g.enough, Fail)
       case Done(result) =>
         && stack == []
         && match result
            case At(i) =>
              i < |g.sh.trees| && Settled(w, Rule(root), 0, g.enough, Match(pos, [g.sh.trees[i]]))
            case Nil => Settled(w, Rule(root), 0, g.enough, Fail)
  }

  // ---------------------------------------------------------------------------------------------
  // The invariant is kept by each change to the stack

  lemma LogicLater(w: World, root: nat, stack: seq<Frame>, trees: seq<Tree>, open: seq<seq<nat>>,
                   entered: seq<nat>, enough: nat, grown: seq<Tree>, more: nat)
    requires LogicOk(w, root, stack, trees, open, entered, enough) && enough <= more
    requires |trees| <= |grown| && grown[..|trees|] == trees
    ensures LogicOk(w, root, stack, grown, open, entered, more)
  {
    forall i | 0 <= i < |stack| ensures AdvancingAt(w, stack, grown, open, entered, more, i) {
      assert AdvancingAt(w, stack, trees, open, entered, enough, i);
      assert Forest(grown, open[i]) == Forest(trees, open[i]) by {
        forall k | 0 <= k < |open[i]| ensures grown[open[i][k]] == trees[open[i][k]] {
        }
      }
      AdvancingLater(w, stack[i], entered[i], Forest(trees, open[i]), enough, more);
    }
  }

  lemma MemoLater(w: World, slots: seq<Option<nat>>, rows: nat, memo: seq<Memo>, trees: seq<Tree>,
                  enough: nat, grown: seq<Tree>, more: nat)
    requires MemoOk(w, slots, rows, memo, trees, enough) && enough <= more
    requires |trees| <= |grown| && grown[..|trees|] == trees
    ensures MemoOk(w, slots, rows, memo, grown, more)
  {
    forall r, p: nat | 0 <= r < |slots| && slots[r].Some? && p <= |w.tokens|
      ensures MemoIndex(w, slots[r].value, p) < |memo| &&
              EntryOk(w, r, p, memo[MemoIndex(w, slots[r].value, p)], grown, more)
    {
      var e := memo[MemoIndex(w, slots[r].value, p)];
      assert EntryOk(w, r, p, e, trees, enough);
      if e.Stored? {
        assert grown[e.index] == trees[e.index];
      }
    }
  }

  /** Without its top frame the stack is still in order.  */
  lemma PopFrame(w: World, root: nat, stack: seq<Frame>, trees: seq<Tree>, open: seq<seq<nat>>,
                 entered: seq<nat>, enough: nat)
    requires LogicOk(w, root, stack, trees, open, entered, enough) && stack != []
    ensures var t := |stack| - 1; LogicOk(w, root, stack[..t], trees, open[..t], entered[..t], enough)
  {
    var t := |stack| - 1;
    forall i | 0 <= i < t ensures AdvancingAt(w, stack[..t], trees, open[..t], entered[..t], enough, i) {
      assert AdvancingAt(w, stack, trees, open, entered, enough, i);
    }
    forall i | 0 <= i < t ensures NestedAt(w, root, stack[..t], entered[..t], i) {
      assert NestedAt(w, root, stack, entered, i);
    }
  }

  /** What the top frame's node came out as is what the frame below waited for.  */
  lemma PopComesOut(w: World, root: nat, stack: seq<Frame>, trees: seq<Tree>, open: seq<seq<nat>>,
                    entered: seq<nat>, enough: nat, o: Outcome)
    requires LogicOk(w, root, stack, trees, open, entered, enough) && stack != []
    requires Settled(w, stack[|stack| - 1].node, stack[|stack| - 1].start, enough, o)
    ensures var t := |stack| - 1;
            && FramesWell(w, stack[..t], entered[..t])
            && CameOut(w, root, stack[..t], entered[..t], enough + 1, o)
  {
    var t := |stack| - 1;
    assert NestedAt(w, root, stack, entered, t);
    if t > 0 {
      NodeSettles(w, Pending(w, stack[t - 1]), entered[t - 1], enough, o);
      assert stack[..t][t - 1] == stack[t - 1] && entered[..t][t - 1] == entered[t - 1];
    }
  }

  /** A frame on top of the others.  */
  lemma PushFrame(w: World, root: nat, stack: seq<Frame>, trees: seq<Tree>, open: seq<seq<nat>>,
                  entered: seq<nat>, enough: nat, f: Frame, ids: seq<nat>, pos: nat)
    requires LogicOk(w, root, stack, trees, open, entered, enough)
    requires Inside(ids, |trees|) && Advancing(w, f, pos, Forest(trees, ids), enough)
    requires if stack == [] then f.node == Rule(root) && f.start == 0
             else
               var n := Pending(w, stack[|stack| - 1]);
               && f.node == w.code.nodes[n] && f.start == entered[|stack| - 1] && !w.Blocked(n, f.start)
    ensures LogicOk(w, root, stack + [f], trees, open + [ids], entered + [pos], enough)
  {
    var taller, lists, at := stack + [f], open + [ids], entered + [pos];
    forall i | 0 <= i < |taller| ensures AdvancingAt(w, taller, trees, lists, at, enough, i) {
      if i < |stack| {
        assert AdvancingAt(w, stack, trees, open, entered, enough, i);
      }
    }
    forall i | 0 <= i < |taller| ensures NestedAt(w, root, taller, at, i) {
      if i < |stack| {
        assert NestedAt(w, root, stack, entered, i);
      }
    }
  }

  /** What the top frame may be replaced by.  */
  lemma ReplaceFrame(w: World, root: nat, stack: seq<Frame>, trees: seq<Tree>, open: seq<seq<nat>>,
                     entered: seq<nat>, enough: nat, f: Frame, ids: seq<nat>, pos: nat)
    requires LogicOk(w, root, stack, trees, open, entered, enough) && stack != []
    requires f.node == stack[|stack| - 1].node && f.start == stack[|stack| - 1].start
    requires Inside(ids, |trees|) && Advancing(w, f, pos, Forest(trees, ids), enough)
    ensures var t := |stack| - 1;
            LogicOk(w, root, stack[..t] + [f], trees, open[..t] + [ids], entered[..t] + [pos], enough)
  {
    var t := |stack| - 1;
    PopFrame(w, root, stack, trees, open, entered, enough);
    assert NestedAt(w, root, stack, entered, t);
    PushFrame(w, root, stack[..t], trees, open[..t], entered[..t], enough, f, ids, pos);
  }

  // ---------------------------------------------------------------------------------------------
  // ... and by each change to the arena

  /** The top frame with the list a success carries spliced on.  */
  function Adopt(f: Frame, head: Link, tail: Link): (r: Frame) {
    if head.Nil? then f
    else f.(head := if f.head.Nil? then head else f.head, tail := tail)
  }

  /** Splicing disturbs no other frame's list, and the top frame's list becomes the longer one.  */
  lemma SpliceLists(arena: seq<ParseNode>, stack: seq<Frame>, sh: Shadow, open: seq<seq<nat>>,
                    cur: seq<nat>, head: Link, tail: Link)
    requires ListsOk(arena, stack, sh, open) && stack != []
    requires ListOk(arena, sh, cur, head, tail, |stack|)
    ensures var t := |stack| - 1;
            var linked := LinkUp(arena, stack[t].tail, head);
            var later := sh.(owner := SetOwner(sh.owner, cur, t));
            var f := Adopt(stack[t], head, tail);
            && ListsOk(linked, stack[..t], later, open[..t])
            && ListOk(linked, later, open[t] + cur, f.head, f.tail, t)
            && Inside(open[t] + cur, |sh.trees|)
            && Forest(sh.trees, open[t] + cur) == Forest(sh.trees, open[t]) + Forest(sh.trees, cur)
  {
    hide NodeShadowed, Forest;
    var t := |stack| - 1;
    var linked := LinkUp(arena, stack[t].tail, head);
    var later := sh.(owner := SetOwner(sh.owner, cur, t));
    ForestJoins(sh.trees, open[t], cur);
    SpliceArena(arena, sh, open[t], stack[t].head, stack[t].tail, t, cur, head, tail, |stack|);
    forall i | 0 <= i < t
      ensures ListOk(linked, later, open[..t][i], stack[..t][i].head, stack[..t][i].tail, i)
    {
      SpliceOther(arena, sh, open[t], stack[t].tail, t, cur, head, |stack|,
                  open[i], stack[i].head, stack[i].tail, i);
    }
  }

  /** A new node leaves every frame's list as it was, when the nodes it closes are no frame's.  */
  lemma GrowLists(arena: seq<ParseNode>, stack: seq<Frame>, sh: Shadow, open: seq<seq<nat>>,
                  node: ParseNode, tree: Tree, kids: seq<nat>, closing: seq<nat>)
    requires ListsOk(arena, stack, sh, open)
    requires Inside(closing, |arena|) && Owned(sh.owner, closing, |stack|)
    requires ArenaOk(arena + [node], Shadow(sh.trees + [tree], sh.kids + [kids],
                                            SetOwner(sh.owner, closing, CLOSED) + [|stack|]))
    ensures ListsOk(arena + [node], stack, Shadow(sh.trees + [tree], sh.kids + [kids],
                                                  SetOwner(sh.owner, closing, CLOSED) + [|stack|]), open)
  {
    forall i | 0 <= i < |stack|
      ensures ListOk(arena + [node], Shadow(sh.trees + [tree], sh.kids + [kids],
                                            SetOwner(sh.owner, closing, CLOSED) + [|stack|]),
                     open[i], stack[i].head, stack[i].tail, i)
    {
      GrowOther(arena, sh, node, tree, kids, closing, |stack|, open[i], stack[i].head, stack[i].tail, i);
    }
  }

  /** What the state is once a memoized node has been copied.  */
  ghost function Recalled(g: Ghosts, stored: nat): (h: Ghosts)
    requires stored < |g.sh.trees| && stored < |g.sh.kids|
  {
    g.(sh := Shadow(g.sh.trees + [g.sh.trees[stored]], g.sh.kids + [g.sh.kids[stored]], g.sh.owner + [|g.open|]),
       enough := g.enough + 1)
  }

  lemma RecallKeeps(w: World, root: nat, arena: seq<ParseNode>, stack: seq<Frame>, g: Ghosts, pos: nat,
                    cur: seq<nat>, n: nat, stored: nat)
    requires ActionOk(w, root, arena, stack, g, pos, cur, Enter(n))
    requires w.code.nodes[n].Rule? && !w.Blocked(n, pos) && stored < |arena|
    requires EntryOk(w, w.code.nodes[n].id, pos, Stored(stored), g.sh.trees, g.enough)
    ensures stored < |g.sh.trees| && stored < |g.sh.kids|
    ensures ActionOk(w, root, arena + [arena[stored].(nextSibling := Nil)], stack, Recalled(g, stored),
                     arena[stored].end, [|arena|], Succeed(At(|arena|), At(|arena|)))
  {
    hide AdvancingAt, NestedAt, Settled;
    var tree, kids := g.sh.trees[stored], g.sh.kids[stored];
    assert NodeShadowed(arena, g.sh, stored);
    NodeSettles(w, n, pos, g.enough, Match(tree.end, [tree]));
    CopyNode(arena, g.sh, stored, |stack|);
    assert SetOwner(g.sh.owner, [], CLOSED) == g.sh.owner;
    GrowLists(arena, stack, g.sh, g.open, arena[stored].(nextSibling := Nil), tree, kids, []);
    var h := Recalled(g, stored);
    LogicLater(w, root, stack, g.sh.trees, g.open, g.entered, g.enough, h.sh.trees, h.enough);
    assert Forest(h.sh.trees, [|arena|]) == [tree];
  }

  /** What the state is once the top frame is gone.  */
  ghost function Popped(g: Ghosts): (h: Ghosts)
    requires 0 < |g.open| == |g.entered|
  {
    var t := |g.open| - 1;
    g.(open := g.open[..t], entered := g.entered[..t], enough := g.enough + 1)
  }

  lemma PopKeeps(w: World, root: nat, arena: seq<ParseNode>, stack: seq<Frame>, g: Ghosts, o: Outcome)
    requires StackOk(w, root, arena, stack, g) && stack != []
    requires Settled(w, stack[|stack| - 1].node, stack[|stack| - 1].start, g.enough, o)
    ensures var t := |stack| - 1;
            && StackOk(w, root, arena, stack[..t], Popped(g))
            && CameOut(w, root, stack[..t], g.entered[..t], g.enough + 1, o)
            && ListOk(arena, g.sh, g.open[t], stack[t].head, stack[t].tail, t)
  {
    hide Advancing, Settled, SettledAt, CodeOk, NodeOk, AdvancingAt, NestedAt, ListOk, ListsOk, NodeShadowed;
    var t := |stack| - 1;
    PopComesOut(w, root, stack, g.sh.trees, g.open, g.entered, g.enough, o);
    PopFrame(w, root, stack, g.sh.trees, g.open, g.entered, g.enough);
    PopList(arena, stack, g.sh, g.open);
    LogicLater(w, root, stack[..t], g.sh.trees, g.open[..t], g.entered[..t], g.enough, g.sh.trees, g.enough + 1);
  }

  /** What the state is once the top frame has handed its list down.  */
  ghost function PassedUp(g: Ghosts, cur: seq<nat>): (h: Ghosts)
    requires 0 < |g.open| == |g.entered|
  {
    var t := |g.open| - 1;
    Ghosts(g.sh.(owner := SetOwner(g.sh.owner, cur, t)), g.open[..t], g.entered[..t], g.enough + 1)
  }

  lemma PassUpKeeps(w: World, root: nat, arena: seq<ParseNode>, stack: seq<Frame>, g: Ghosts,
                    pos: nat, cur: seq<nat>, head: Link, tail: Link)
    requires ActionOk(w, root, arena, stack, g, pos, cur, Succeed(head, tail)) && stack != []
    requires var t := |stack| - 1;
             Settled(w, stack[t].node, stack[t].start, g.enough,
                     Match(pos, Forest(g.sh.trees, g.open[t]) + Forest(g.sh.trees, cur)))
    ensures var t := |stack| - 1;
            var f := Adopt(stack[t], head, tail);
            ActionOk(w, root, LinkUp(arena, stack[t].tail, head), stack[..t], PassedUp(g, cur), pos,
                     g.open[t] + cur, Succeed(f.head, f.tail))
  {
    hide Advancing, Settled, SettledAt, CodeOk, NodeOk, AdvancingAt, NestedAt, NodeShadowed, Linked;
    var t := |stack| - 1;
    SpliceLists(arena, stack, g.sh, g.open, cur, head, tail);
    PopComesOut(w, root, stack, g.sh.trees, g.open, g.entered, g.enough,
                Match(pos, Forest(g.sh.trees, g.open[t] + cur)));
    PopFrame(w, root, stack, g.sh.trees, g.open, g.entered, g.enough);
    LogicLater(w, root, stack[..t], g.sh.trees, g.open[..t], g.entered[..t], g.enough, g.sh.trees, g.enough + 1);
  }

  /** What the state is once the top frame has moved on.  */
  ghost function Resumed(g: Ghosts, cur: seq<nat>, pos: nat): (h: Ghosts)
    requires 0 < |g.open| == |g.entered|
  {
    var t := |g.open| - 1;
    Ghosts(g.sh.(owner := SetOwner(g.sh.owner, cur, t)),
           g.open[..t] + [g.open[t] + cur], g.entered[..t] + [pos], g.enough)
  }

  lemma ResumeLists(arena: seq<ParseNode>, stack: seq<Frame>, sh: Shadow, open: seq<seq<nat>>,
                    cur: seq<nat>, head: Link, tail: Link, next: Frame)
    requires ListsOk(arena, stack, sh, open) && ListOk(arena, sh, cur, head, tail, |stack|) && stack != []
    requires var t := |stack| - 1; next.head == stack[t].head && next.tail == stack[t].tail
    ensures var t := |stack| - 1;
            && ListsOk(LinkUp(arena, stack[t].tail, head), stack[..t] + [Adopt(next, head, tail)],
                       sh.(owner := SetOwner(sh.owner, cur, t)), open[..t] + [open[t] + cur])
            && Inside(open[t] + cur, |sh.trees|)
            && Forest(sh.trees, open[t] + cur) == Forest(sh.trees, open[t]) + Forest(sh.trees, cur)
  {
    hide ListOk;
    var t := |stack| - 1;
    SpliceLists(arena, stack, sh, open, cur, head, tail);
    PushList(LinkUp(arena, stack[t].tail, head), stack[..t], sh.(owner := SetOwner(sh.owner, cur, t)),
             open[..t], Adopt(next, head, tail), open[t] + cur);
  }

  lemma ResumeKeeps(w: World, root: nat, arena: seq<ParseNode>, stack: seq<Frame>, g: Ghosts,
                    pos: nat, cur: seq<nat>, head: Link, tail: Link, next: Frame)
    requires ActionOk(w, root, arena, stack, g, pos, cur, Succeed(head, tail)) && stack != []
    requires FrameOk(w, next) && pos <= |w.tokens|
    requires var t := |stack| - 1;
             && next.node == stack[t].node && next.start == stack[t].start
             && next.head == stack[t].head && next.tail == stack[t].tail
             && Advancing(w, next, pos, Forest(g.sh.trees, g.open[t]) + Forest(g.sh.trees, cur), g.enough)
    ensures var t := |stack| - 1;
            var f := Adopt(next, head, tail);
            ActionOk(w, root, LinkUp(arena, stack[t].tail, head), stack[..t] + [f], Resumed(g, cur, pos), pos,
                     [], Enter(Pending(w, f)))
  {
    hide Advancing, Settled, SettledAt, ListsOk, ListOk, CodeOk, NodeOk, AdvancingAt, NestedAt;
    var t := |stack| - 1;
    var f := Adopt(next, head, tail);
    var ids := g.open[t] + cur;
    ResumeLists(arena, stack, g.sh, g.open, cur, head, tail, next);
    AdvancingRelinked(w, next, pos, Forest(g.sh.trees, ids), g.enough, f.head, f.tail);
    ReplaceFrame(w, root, stack, g.sh.trees, g.open, g.entered, g.enough, f, ids, pos);
  }

  /** What the state is once a choice has moved to a later alternative.  */
  ghost function Retried(g: Ghosts, pos: nat): (h: Ghosts)
    requires 0 < |g.open| == |g.entered|
  {
    var t := |g.open| - 1;
    g.(open := g.open[..t] + [[]], entered := g.entered[..t] + [pos])
  }

  lemma RetryLists(arena: seq<ParseNode>, stack: seq<Frame>, sh: Shadow, open: seq<seq<nat>>, next: Frame)
    requires ListsOk(arena, stack, sh, open) && stack != [] && next.head.Nil? && next.tail.Nil?
    ensures ListsOk(arena, stack[..|stack| - 1] + [next], sh, open[..|stack| - 1] + [[]])
    ensures Forest(sh.trees, []) == []
  {
    PopList(arena, stack, sh, open);
    PushList(arena, stack[..|stack| - 1], sh, open[..|stack| - 1], next, []);
  }

  lemma RetryKeeps(w: World, root: nat, arena: seq<ParseNode>, stack: seq<Frame>, g: Ghosts,
                   pos: nat, next: Frame)
    requires StackOk(w, root, arena, stack, g) && 0 < |stack| <= MAX_DEPTH
    requires FrameOk(w, next) && pos <= |w.tokens|
    requires var t := |stack| - 1;
             && next.node == stack[t].node && next.start == stack[t].start
             && next.head.Nil? && next.tail.Nil?
             && Advancing(w, next, pos, [], g.enough)
    ensures var t := |stack| - 1;
            ActionOk(w, root, arena, stack[..t] + [next], Retried(g, pos), pos, [], Enter(Pending(w, next)))
  {
    hide Advancing, Settled, SettledAt, ListsOk, ListOk, CodeOk, NodeOk, AdvancingAt, NestedAt;
    RetryLists(arena, stack, g.sh, g.open, next);
    ReplaceFrame(w, root, stack, g.sh.trees, g.open, g.entered, g.enough, next, [], pos);
  }

  /** What a choice on top of the stack knows when its alternative fails.  */
  lemma ChoiceOnTop(w: World, root: nat, arena: seq<ParseNode>, stack: seq<Frame>, g: Ghosts, pos: nat, cur: seq<nat>)
    requires ActionOk(w, root, arena, stack, g, pos, cur, Reject) && stack != []
    requires stack[|stack| - 1].node.Choice?
    ensures var f := stack[|stack| - 1];
            && FrameOk(w, f) && NodesIn(w, Span(w.code, f.node.start, f.node.len))
            && Advancing(w, f, f.start, [], g.enough)
            && SettledAt(w, Pending(w, f), f.start, g.enough, Fail)
  {
    assert AdvancingAt(w, stack, g.sh.trees, g.open, g.entered, g.enough, |stack| - 1);
  }

  /** What the state is once the top frame's rule has become a node.  */
  ghost function Finished(g: Ghosts, cur: seq<nat>, tree: Tree): (h: Ghosts)
    requires 0 < |g.open| == |g.entered|
  {
    var t := |g.open| - 1;
    var owner := SetOwner(SetOwner(g.sh.owner, cur, t), cur, CLOSED) + [t];
    Ghosts(Shadow(g.sh.trees + [tree], g.sh.kids + [cur], owner), g.open[..t], g.entered[..t], g.enough + 1)
  }

  lemma FinishKeeps(w: World, root: nat, arena: seq<ParseNode>, stack: seq<Frame>, g: Ghosts,
                    pos: nat, cur: seq<nat>, head: Link, tail: Link, tree: Tree)
    requires ActionOk(w, root, arena, stack, g, pos, cur, Succeed(head, tail)) && stack != []
    requires stack[|stack| - 1].node.Rule? && g.open[|stack| - 1] == []
    requires var f := stack[|stack| - 1];
             && tree == Tree(f.node.id, f.start, pos, Forest(g.sh.trees, cur))
             && Settled(w, f.node, f.start, g.enough, Match(pos, [tree]))
    ensures var t := |stack| - 1;
            var f := Adopt(stack[t], head, tail);
            ActionOk(w, root,
                     LinkUp(arena, stack[t].tail, head) + [ParseNode(f.node.id, f.start, pos, f.head, Nil)],
                     stack[..t], Finished(g, cur, tree), pos, [|arena|], Succeed(At(|arena|), At(|arena|)))
  {
    hide Advancing, Settled, SettledAt, CodeOk, NodeOk, AdvancingAt, NestedAt, NodeShadowed, Linked;
    var t := |stack| - 1;
    var f := Adopt(stack[t], head, tail);
    SpliceLists(arena, stack, g.sh, g.open, cur, head, tail);
    assert g.open[t] + cur == cur;
    PopComesOut(w, root, stack, g.sh.trees, g.open, g.entered, g.enough, Match(pos, [tree]));
    PopFrame(w, root, stack, g.sh.trees, g.open, g.entered, g.enough);
    FinishLists(LinkUp(arena, stack[t].tail, head), stack[..t],
                g.sh.(owner := SetOwner(g.sh.owner, cur, t)), g.open[..t], cur, f.head, f.tail, tree);
    var h := Finished(g, cur, tree);
    LogicLater(w, root, stack[..t], g.sh.trees, g.open[..t], g.entered[..t], g.enough, h.sh.trees, g.enough + 1);
  }

  /** The memo entry a finished rule earns.  */
  lemma StoredEntry(w: World, tree: Tree, trees: seq<Tree>, enough: nat)
    requires w.Ok() && tree.rule < |w.code.rules| && tree.start <= tree.end <= |w.tokens|
    requires Settled(w, Rule(tree.rule), tree.start, enough, Match(tree.end, [tree]))
    ensures EntryOk(w, tree.rule, tree.start, Stored(|trees|), trees + [tree], enough + 1)
  {}

  lemma FinishLists(arena: seq<ParseNode>, stack: seq<Frame>, sh: Shadow, open: seq<seq<nat>>,
                    cur: seq<nat>, head: Link, tail: Link, tree: Tree)
    requires ListsOk(arena, stack, sh, open) && ListOk(arena, sh, cur, head, tail, |stack|)
    requires tree.kids == Forest(sh.trees, cur)
    ensures var later := Shadow(sh.trees + [tree], sh.kids + [cur], SetOwner(sh.owner, cur, CLOSED) + [|stack|]);
            var grown := arena + [ParseNode(tree.rule, tree.start, tree.end, head, Nil)];
            && ListsOk(grown, stack, later, open)
            && ListOk(grown, later, [|arena|], At(|arena|), At(|arena|), |stack|)
            && Forest(later.trees, [|arena|]) == [tree]
  {
    CloseList(arena, sh, cur, head, tail, |stack|, tree.rule, tree.start, tree.end);
    GrowLists(arena, stack, sh, open, ParseNode(tree.rule, tree.start, tree.end, head, Nil), tree, cur, cur);
  }

  lemma PushList(arena: seq<ParseNode>, stack: seq<Frame>, sh: Shadow, open: seq<seq<nat>>,
                 f: Frame, ids: seq<nat>)
    requires ListsOk(arena, stack, sh, open) && ListOk(arena, sh, ids, f.head, f.tail, |stack|)
    ensures ListsOk(arena, stack + [f], sh, open + [ids])
  {
    forall i | 0 <= i <= |stack|
      ensures ListOk(arena, sh, (open + [ids])[i], (stack + [f])[i].head, (stack + [f])[i].tail, i)
    {
    }
  }

  lemma PopList(arena: seq<ParseNode>, stack: seq<Frame>, sh: Shadow, open: seq<seq<nat>>)
    requires ListsOk(arena, stack, sh, open) && stack != []
    ensures ListsOk(arena, stack[..|stack| - 1], sh, open[..|stack| - 1])
    ensures |arena| == |sh.owner|
    ensures ListOk(arena, sh, open[|stack| - 1], stack[|stack| - 1].head, stack[|stack| - 1].tail, |stack| - 1)
  {}

  /** Writing one memo entry leaves the others as they were.  */
  lemma RememberKeeps(w: World, slots: seq<Option<nat>>, rows: nat, memo: seq<Memo>, trees: seq<Tree>,
                      enough: nat, rule: nat, pos: nat, e: Memo)
    requires MemoOk(w, slots, rows, memo, trees, enough)
    requires rule < |slots| && slots[rule].Some? && pos <= |w.tokens|
    requires EntryOk(w, rule, pos, e, trees, enough)
    ensures var at := MemoIndex(w, slots[rule].value, pos);
            at < |memo| && MemoOk(w, slots, rows, memo[at := e], trees, enough)
  {
    var at := MemoIndex(w, slots[rule].value, pos);
    forall r, p: nat | 0 <= r < |slots| && slots[r].Some? && p <= |w.tokens|
      ensures MemoIndex(w, slots[r].value, p) < |memo| &&
              EntryOk(w, r, p, memo[at := e][MemoIndex(w, slots[r].value, p)], trees, enough)
    {
      assert EntryOk(w, r, p, memo[MemoIndex(w, slots[r].value, p)], trees, enough);
      if MemoIndex(w, slots[r].value, p) == at {
        MemoIndexInjective(w, slots[r].value, p, slots[rule].value, pos);
      }
    }
  }

  // ---------------------------------------------------------------------------------------------
  // How deep the stack is

  lemma CompositeNeedsFuel(w: World, node: Node, pos: nat)
    requires w.Ok() && NodeOk(w.code, node) && node.Composite() && pos <= |w.tokens|
    ensures RunNode(w, node, pos, 0).None?
  {
    if node.Sequence? || node.Choice? {
      assert Span(w.code, node.start, node.len) != [];
    }
  }

  /** If the whole match answers within `fuel`, frame `i`'s part of it answers within `fuel - i`.  */
  lemma {:induction false} FrameAnswers(w: World, root: nat, stack: seq<Frame>, trees: seq<Tree>,
                     open: seq<seq<nat>>, entered: seq<nat>, enough: nat, fuel: nat, i: nat)
    requires LogicOk(w, root, stack, trees, open, entered, enough) && i < |stack|
    requires RunNode(w, Rule(root), 0, fuel).Some?
    ensures i < fuel && RunNode(w, stack[i].node, stack[i].start, fuel - i).Some?
  {
    assert NestedAt(w, root, stack, entered, i);
    if i > 0 {
      FrameAnswers(w, root, stack, trees, open, entered, enough, fuel, i - 1);
      assert AdvancingAt(w, stack, trees, open, entered, enough, i - 1);
      PendingAnswers(w, stack[i - 1], entered[i - 1], Forest(trees, open[i - 1]), enough, fuel - (i - 1));
    }
    CompositeNeedsFuel(w, stack[i].node, stack[i].start);
  }

  /** A full stack with one more frame to push means the match needs more nesting than the cap.  */
  lemma FullMeansDeep(w: World, root: nat, stack: seq<Frame>, trees: seq<Tree>,
                      open: seq<seq<nat>>, entered: seq<nat>, enough: nat, fuel: nat)
    requires LogicOk(w, root, stack, trees, open, entered, enough) && stack != []
    requires var n := Pending(w, stack[|stack| - 1]);
             w.code.nodes[n].Composite() && !w.Blocked(n, entered[|stack| - 1])
    requires fuel <= |stack|
    ensures RunNode(w, Rule(root), 0, fuel).None?
  {
    var t := |stack| - 1;
    if RunNode(w, Rule(root), 0, fuel).Some? {
      FrameAnswers(w, root, stack, trees, open, entered, enough, fuel, t);
      assert AdvancingAt(w, stack, trees, open, entered, enough, t);
      PendingAnswers(w, stack[t], entered[t], Forest(trees, open[t]), enough, fuel - t);
      CompositeNeedsFuel(w, w.code.nodes[Pending(w, stack[t])], entered[t]);
    }
  }

  // ---------------------------------------------------------------------------------------------
  // Why the loop stops

  /** How many more children a frame can still enter after the pending one.  */
  ghost function Left(w: World, f: Frame): (n: nat) {
    match f.node
    case Sequence(_, len) => if f.step < len then len - f.step - 1 else 0
    case Choice(_, len) => if f.step < len then len - f.step - 1 else 0
    case Repeat(_) => if f.mark < |w.tokens| then |w.tokens| - f.mark else 0
    case _ => 0
  }

  ghost function Width(w: World): (n: nat) {
    |w.code.children| + |w.tokens|
  }

  /** A bound on the steps taken by a node entered with room for `room` more frames.  */
  ghost function Cost(width: nat, room: nat): (n: nat)
    ensures n >= 1
  {
    if room == 0 then 1 else (width + 1) * (Cost(width, room - 1) + 1) + 2
  }

  ghost function StackCost(w: World, stack: seq<Frame>, room: nat): (n: nat)
    requires |stack| <= room
  {
    if stack == [] then 0
    else
      var t := |stack| - 1;
      StackCost(w, stack[..t], room) + Left(w, stack[t]) * (Cost(Width(w), room - |stack|) + 1) + 1
  }

  ghost function ActionCost(w: World, stack: seq<Frame>, room: nat, a: Action): (n: nat)
    requires |stack| <= room
  {
    StackCost(w, stack, room) + (if a.Enter? then Cost(Width(w), room - |stack|) else 0)
  }

  lemma Scale(less: nat, more: nat, unit: nat)
    requires less <= more
    ensures less * unit <= more * unit && (more + 1) * unit == more * unit + unit
  {}

  /** The cost of one frame more.  */
  lemma CostOnTop(w: World, below: seq<Frame>, room: nat, f: Frame)
    requires |below| < room
    ensures StackCost(w, below + [f], room)
         == StackCost(w, below, room) + Left(w, f) * (Cost(Width(w), room - |below| - 1) + 1) + 1
  {
    assert (below + [f])[..|below|] == below;
  }

  /** Suspending a node and entering its child.  */
  lemma PushCosts(w: World, stack: seq<Frame>, room: nat, f: Frame)
    requires |stack| < room && Left(w, f) <= Width(w)
    ensures StackCost(w, stack + [f], room) + Cost(Width(w), room - |stack| - 1)
            < StackCost(w, stack, room) + Cost(Width(w), room - |stack|)
  {
    CostOnTop(w, stack, room, f);
    Scale(Left(w, f), Width(w), Cost(Width(w), room - |stack| - 1) + 1);
  }

  lemma PopCosts(w: World, stack: seq<Frame>, room: nat)
    requires 0 < |stack| <= room
    ensures StackCost(w, stack[..|stack| - 1], room) < StackCost(w, stack, room)
  {}

  /** Going on to a later child.  */
  lemma NextCosts(w: World, stack: seq<Frame>, room: nat, f: Frame)
    requires 0 < |stack| <= room && Left(w, f) < Left(w, stack[|stack| - 1])
    ensures StackCost(w, stack[..|stack| - 1] + [f], room) + Cost(Width(w), room - |stack|)
            < StackCost(w, stack, room)
  {
    var below, top := stack[..|stack| - 1], stack[|stack| - 1];
    assert stack == below + [top];
    CostOnTop(w, below, room, f);
    CostOnTop(w, below, room, top);
    var unit := Cost(Width(w), room - |stack|) + 1;
    Scale(Left(w, f) + 1, Left(w, top), unit);
    Scale(Left(w, f), Left(w, f), unit);
  }
}
