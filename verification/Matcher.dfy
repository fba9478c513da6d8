/** The matcher: a loop over an explicit stack of frames, with a FIRST filter in front of every node
    and a memo for some rules.  It always stops, and what it answers is what the parsing expression
    semantics of the table answers, tree and all.  */
module Matcher {
  import opened RuleTable
  import opened Peg
  import opened Arena
  import opened Frames
  import opened MatcherInvariant

  class Matcher {
    const w: World
    const root: nat
    const slots: seq<Option<nat>>
    const rows: nat
    /** Which symbol each token spells, looked up once.  */
    const codes: seq<nat>

    var arena: seq<ParseNode>
    var stack: seq<Frame>
    var memo: seq<Memo>
    var pos: nat

    ghost var g: Ghosts
    ghost var cur: seq<nat>

    /** What the constants satisfy.  */
    ghost predicate Given() {
      && w.Ok() && root < |w.code.rules|
      && RepeatsConsume(w) && SlotsOk(w.code, slots, rows)
      && |codes| == |w.tokens|
      && forall i :: 0 <= i < |codes| ==> codes[i] == SymbolCode(w.code.symbols, w.tokens[i].text)
    }

    ghost predicate Valid(a: Action)
      reads this
    {
      && Given() && 1 <= g.enough
      && ActionOk(w, root, arena, stack, g, pos, cur, a)
      && MemoOk(w, slots, rows, memo, g.sh.trees, g.enough)
    }

    ghost function CostOf(a: Action): (n: nat)
      requires Valid(a)
      reads this
    {
      ActionCost(w, stack, MAX_DEPTH, a)
    }

    /** Ready to enter the body of `root`.  */
    constructor (w: World, root: nat)
      requires w.Ok() && root < |w.code.rules| && RepeatsConsume(w)
      ensures this.w == w && this.root == root
      ensures Valid(Enter(w.code.rules[root].root))
    {
      var slots, rows := BuildSlots(w.code);
      this.w, this.root, this.slots, this.rows := w, root, slots, rows;
      codes := seq(|w.tokens|, i requires 0 <= i < |w.tokens| => SymbolCode(w.code.symbols, w.tokens[i].text));
      memo := seq(rows * (|w.tokens| + 1), _ => Empty);
      arena, pos := [], 0;
      var f := Frame(Rule(root), 0, 0, 0, Nil, Nil);
      stack := [f];
      g := Ghosts(Shadow([], [], []), [[]], [0], 1);
      cur := [];
      new;
      FreshFrame(this.w, Rule(root), 0, 1);
      assert Forest(g.sh.trees, g.open[0]) == [];
      assert AdvancingAt(this.w, stack, [], g.open, g.entered, 1, 0);
      forall r, p: nat | 0 <= r < |slots| && slots[r].Some? && p <= |this.w.tokens|
        ensures MemoIndex(this.w, slots[r].value, p) < |memo| &&
                EntryOk(this.w, r, p, memo[MemoIndex(this.w, slots[r].value, p)], [], 1)
      {
        MemoIndexFits(this.w, slots[r].value, rows, p);
      }
    }

    // -------------------------------------------------------------------------------------------
    // Terminals

    /** Where a terminal matches to from the current position.  */
    method TryTerminal(node: Node) returns (end: Option<nat>)
      requires Given() && pos <= |w.tokens| && NodeOk(w.code, node) && !node.Composite()
      ensures end == TerminalEnd(w.code, w.tokens, node, pos)
    {
      if pos >= |w.tokens| {
        return None;
      }
      var token := w.tokens[pos];
      if node.String? {
        if token.kind != Kind.String {
          return None;
        }
        var at := pos + 1;
        if IsPlainString(token.text) {
          while at < |w.tokens| && Continues(w.tokens[at])
            invariant pos < at <= |w.tokens| && RunEnd(w.tokens, pos + 1) == RunEnd(w.tokens, at)
          {
            at := at + 1;
          }
        }
        return Some(at);
      }
      var matched := if node.Symbol? then codes[pos] == node.index else Accepts(w.code, node, token);
      return if matched then Some(pos + 1) else None;
    }

    // -------------------------------------------------------------------------------------------
    // Entering a node

    /** Passes over the alternatives that the filter blocks at the current token.  */
    method Viable(span: seq<nat>, step: nat) returns (next: nat)
      requires Given() && pos <= |w.tokens| && NodesIn(w, span) && step <= |span|
      ensures step <= next <= |span|
      ensures forall i :: step <= i < next ==> w.Blocked(span[i], pos)
      ensures next < |span| ==> !w.Blocked(span[next], pos)
    {
      next := step;
      while next < |span| && w.Blocked(span[next], pos)
        invariant step <= next <= |span|
        invariant forall i :: step <= i < next ==> w.Blocked(span[i], pos)
      {
        next := next + 1;
      }
    }

    /** Suspends the node just entered, its list still empty.  */
    method Push(n: nat, step: nat) returns (a: Action, deep: bool)
      requires Valid(Enter(n)) && w.code.nodes[n].Composite() && !w.Blocked(n, pos)
      requires var f := Frame(w.code.nodes[n], pos, step, pos, Nil, Nil);
               Advancing(w, f, pos, [], g.enough)
      modifies this
      ensures !deep ==> Valid(a) && CostOf(a) < old(CostOf(Enter(n)))
      ensures deep ==> forall fuel: nat :: fuel <= MAX_DEPTH ==> RunNode(w, Rule(root), 0, fuel).None?
    {
      hide StackCost, Cost, AdvancingAt, NestedAt, CodeOk, EntryOk;
      var f := Frame(w.code.nodes[n], pos, step, pos, Nil, Nil);
      a, deep := Reject, false;
      if |stack| >= MAX_DEPTH {
        forall fuel: nat | fuel <= MAX_DEPTH ensures RunNode(w, Rule(root), 0, fuel).None? {
          FullMeansDeep(w, root, stack, g.sh.trees, g.open, g.entered, g.enough, fuel);
        }
        deep := true;
        return;
      }
      assert Forest(g.sh.trees, []) == [];
      PushFrame(w, root, stack, g.sh.trees, g.open, g.entered, g.enough, f, [], pos);
      PushList(arena, stack, g.sh, g.open, f, []);
      PushCosts(w, stack, MAX_DEPTH, f);
      stack := stack + [f];
      g := g.(open := g.open + [[]], entered := g.entered + [pos]);
      a := Enter(Pending(w, f));
    }

    /** Handles one node: the filter first, then what the node is.  */
    method EnterNode(n: nat) returns (a: Action, deep: bool)
      requires Valid(Enter(n))
      modifies this
      ensures !deep ==> Valid(a) && CostOf(a) < old(CostOf(Enter(n)))
      ensures deep ==> forall fuel: nat :: fuel <= MAX_DEPTH ==> RunNode(w, Rule(root), 0, fuel).None?
    {
      var node := w.code.nodes[n];
      a, deep := Reject, false;
      if w.Blocked(n, pos) {
        BlockedSettles(w, n, pos);
      } else if !node.Composite() {
        TerminalSettles(w, n, pos);
        var end := TryTerminal(node);
        if end.Some? {
          pos, cur := end.value, [];
          a := Succeed(Nil, Nil);
          assert Forest(g.sh.trees, []) == [];
        }
      } else if node.Rule? {
        a, deep := EnterRule(n);
      } else if node.Choice? {
        a, deep := EnterChoice(n);
      } else if node.Optional? && w.Blocked(node.child, pos) {
        a := PassOptional(n);
      } else {
        FreshFrame(w, node, pos, g.enough);
        a, deep := Push(n, 0);
      }
    }

    method EnterChoice(n: nat) returns (a: Action, deep: bool)
      requires Valid(Enter(n)) && w.code.nodes[n].Choice? && !w.Blocked(n, pos)
      modifies this
      ensures !deep ==> Valid(a) && CostOf(a) < old(CostOf(Enter(n)))
      ensures deep ==> forall fuel: nat :: fuel <= MAX_DEPTH ==> RunNode(w, Rule(root), 0, fuel).None?
    {
      hide StackCost, Cost, AdvancingAt, NestedAt, ListsOk, MemoOk, SlotsOk, RepeatsConsume, EntryOk;
      var node := w.code.nodes[n];
      var step := Viable(Span(w.code, node.start, node.len), 0);
      FreshFrame(w, node, pos, g.enough);
      ChoiceSkips(w, Frame(node, pos, 0, pos, Nil, Nil), pos, [], g.enough, step);
      if step == node.len {
        NodeSettles(w, n, pos, g.enough, Fail);
        LogicLater(w, root, stack, g.sh.trees, g.open, g.entered, g.enough, g.sh.trees, g.enough + 1);
        MemoLater(w, slots, rows, memo, g.sh.trees, g.enough, g.sh.trees, g.enough + 1);
        g := g.(enough := g.enough + 1);
        a, deep := Reject, false;
      } else {
        a, deep := Push(n, step);
      }
    }

    /** An optional whose child cannot start here matches nothing without entering it.  */
    method PassOptional(n: nat) returns (a: Action)
      requires Valid(Enter(n)) && w.code.nodes[n].Optional? && !w.Blocked(n, pos)
      requires w.Blocked(w.code.nodes[n].child, pos)
      modifies this
      ensures Valid(a) && CostOf(a) < old(CostOf(Enter(n)))
    {
      hide StackCost, Cost, AdvancingAt, NestedAt, EntryOk;
      var node := w.code.nodes[n];
      FreshFrame(w, node, pos, g.enough);
      BlockedSettles(w, node.child, pos);
      OptionalSkips(w, Frame(node, pos, 0, pos, Nil, Nil), pos, [], g.enough);
      NodeSettles(w, n, pos, g.enough, Match(pos, []));
      LogicLater(w, root, stack, g.sh.trees, g.open, g.entered, g.enough, g.sh.trees, g.enough + 1);
      MemoLater(w, slots, rows, memo, g.sh.trees, g.enough, g.sh.trees, g.enough + 1);
      g := g.(enough := g.enough + 1);
      cur := [];
      assert Forest(g.sh.trees, []) == [];
      a := Succeed(Nil, Nil);
    }

    /** A reference to a rule: answered from the memo when it can be.  */
    method EnterRule(n: nat) returns (a: Action, deep: bool)
      requires Valid(Enter(n)) && w.code.nodes[n].Rule? && !w.Blocked(n, pos)
      modifies this
      ensures !deep ==> Valid(a) && CostOf(a) < old(CostOf(Enter(n)))
      ensures deep ==> forall fuel: nat :: fuel <= MAX_DEPTH ==> RunNode(w, Rule(root), 0, fuel).None?
    {
      hide StackCost, Cost, AdvancingAt, NestedAt;
      var rule := w.code.nodes[n].id;
      var entry := Empty;
      if slots[rule].Some? {
        entry := memo[MemoIndex(w, slots[rule].value, pos)];
        assert EntryOk(w, rule, pos, entry, g.sh.trees, g.enough);
      }
      if entry.Empty? {
        FreshFrame(w, Rule(rule), pos, g.enough);
        a, deep := Push(n, 0);
        return;
      }
      deep := false;
      if entry.Failed? {
        NodeSettles(w, n, pos, g.enough, Fail);
        LogicLater(w, root, stack, g.sh.trees, g.open, g.entered, g.enough, g.sh.trees, g.enough + 1);
        MemoLater(w, slots, rows, memo, g.sh.trees, g.enough, g.sh.trees, g.enough + 1);
        g := g.(enough := g.enough + 1);
        a := Reject;
      } else {
        a := Recall(n, entry.index);
      }
    }

    /** Adopts a memoized node: the node is copied, its children are shared.  */
    method Recall(n: nat, stored: nat) returns (a: Action)
      requires Valid(Enter(n)) && w.code.nodes[n].Rule? && !w.Blocked(n, pos)
      requires stored < |arena|
      requires EntryOk(w, w.code.nodes[n].id, pos, Stored(stored), g.sh.trees, g.enough)
      modifies this
      ensures Valid(a) && CostOf(a) < old(CostOf(Enter(n)))
    {
      hide StackCost, Cost, StackOk, CameOut, EntryOk, MemoOk, RepeatsConsume;
      var source := arena[stored];
      RecallKeeps(w, root, arena, stack, g, pos, cur, n, stored);
      MemoLater(w, slots, rows, memo, g.sh.trees, g.enough, Recalled(g, stored).sh.trees, g.enough + 1);
      var copy := |arena|;
      arena := arena + [source.(nextSibling := Nil)];
      pos := source.end;
      g, cur := Recalled(g, stored), [copy];
      a := Succeed(At(copy), At(copy));
    }

    // -------------------------------------------------------------------------------------------
    // Something matched

    /** Gives what matched to the frame on top and decides what that frame does now.  */
    method SettleOk(head: Link, tail: Link) returns (a: Action)
      requires Valid(Succeed(head, tail))
      modifies this
      ensures Valid(a)
      ensures a.Done? || CostOf(a) < old(CostOf(Succeed(head, tail)))
    {
      if stack == [] {
        assert RunNode(w, Rule(root), 0, g.enough) == Some(Match(pos, Forest(g.sh.trees, cur)));
        assert |cur| == 1 && Forest(g.sh.trees, cur) == [g.sh.trees[cur[0]]];
        return Done(head);
      }
      var t := |stack| - 1;
      match stack[t].node {
        case Sequence(_, _) => a := SequenceOk(head, tail);
        case Repeat(_) => a := RepeatOk(head, tail);
        case _ => a := SingleOk(head, tail);
      }
    }

    /** A sequence takes the match and goes on, unless its next child cannot start here.  */
    method SequenceOk(head: Link, tail: Link) returns (a: Action)
      requires Valid(Succeed(head, tail)) && stack != [] && stack[|stack| - 1].node.Sequence?
      modifies this
      ensures Valid(a) && CostOf(a) < old(CostOf(Succeed(head, tail)))
    {
      hide StackCost, Cost, NestedAt, MemoOk, SlotsOk, RepeatsConsume, RunNode;
      var t := |stack| - 1;
      var f := stack[t];
      assert AdvancingAt(w, stack, g.sh.trees, g.open, g.entered, g.enough, t);
      ghost var forest, more := Forest(g.sh.trees, g.open[t]), Forest(g.sh.trees, cur);
      SettledInRange(w, Pending(w, f), g.entered[t], g.enough, pos, more);
      if f.step + 1 == f.node.len {
        SequenceEnds(w, f, g.entered[t], forest, g.enough, pos, more);
        a := PassUp(head, tail);
      } else {
        SequenceMoves(w, f, g.entered[t], forest, g.enough, pos, more);
        var next := f.(step := f.step + 1);
        if w.Blocked(Pending(w, next), pos) {
          BlockedSettles(w, Pending(w, next), pos);
          RuleOrSequenceFails(w, next, pos, forest + more, g.enough);
          a := Drop(f.start);
        } else {
          a := Resume(next, head, tail);
        }
      }
    }

    /** A repeat takes the match and goes round again, unless its child cannot start here.  It has
        always moved: its body is not nullable.  */
    method RepeatOk(head: Link, tail: Link) returns (a: Action)
      requires Valid(Succeed(head, tail)) && stack != [] && stack[|stack| - 1].node.Repeat?
      modifies this
      ensures Valid(a) && CostOf(a) < old(CostOf(Succeed(head, tail)))
    {
      var t := |stack| - 1;
      var f := stack[t];
      var child := f.node.child;
      assert AdvancingAt(w, stack, g.sh.trees, g.open, g.entered, g.enough, t);
      ghost var forest, more := Forest(g.sh.trees, g.open[t]), Forest(g.sh.trees, cur);
      SettledInRange(w, child, g.entered[t], g.enough, pos, more);
      assert NestedAt(w, root, stack, g.entered, t);
      assert Consumed(f.mark, Peg.Run(w, child, f.mark, g.enough));
      RepeatMoves(w, f, g.entered[t], forest, g.enough, pos, more);
      var next := f.(step := f.step + 1, mark := pos);
      if w.Blocked(child, pos) {
        BlockedSettles(w, child, pos);
        RepeatEnds(w, next, pos, forest + more, g.enough);
        a := PassUp(head, tail);
      } else {
        a := Resume(next, head, tail);
      }
    }

    /** A choice, an optional or a rule is finished as soon as its child matches.  */
    method SingleOk(head: Link, tail: Link) returns (a: Action)
      requires Valid(Succeed(head, tail)) && stack != []
      requires !stack[|stack| - 1].node.Sequence? && !stack[|stack| - 1].node.Repeat?
      modifies this
      ensures Valid(a) && CostOf(a) < old(CostOf(Succeed(head, tail)))
    {
      var t := |stack| - 1;
      var f := stack[t];
      assert AdvancingAt(w, stack, g.sh.trees, g.open, g.entered, g.enough, t);
      ghost var forest, more := Forest(g.sh.trees, g.open[t]), Forest(g.sh.trees, cur);
      SettledInRange(w, Pending(w, f), g.entered[t], g.enough, pos, more);
      SingleEnds(w, f, g.entered[t], forest, g.enough, pos, more);
      if f.node.Rule? {
        a := FinishRule(head, tail, Tree(f.node.id, f.start, pos, more));
      } else {
        assert forest + more == more;
        a := PassUp(head, tail);
      }
    }

    /** The frame on top is finished and hands its list to the one below.  */
    method PassUp(head: Link, tail: Link) returns (a: Action)
      requires Valid(Succeed(head, tail)) && stack != []
      requires var t := |stack| - 1;
               Settled(w, stack[t].node, stack[t].start, g.enough,
                       Match(pos, Forest(g.sh.trees, g.open[t]) + Forest(g.sh.trees, cur)))
      modifies this
      ensures Valid(a) && CostOf(a) < old(CostOf(Succeed(head, tail)))
    {
      hide Advancing, Settled, SettledAt, ListOk, StackCost, Cost;
      var t := |stack| - 1;
      var f := Adopt(stack[t], head, tail);
      PopCosts(w, stack, MAX_DEPTH);
      PassUpKeeps(w, root, arena, stack, g, pos, cur, head, tail);
      MemoLater(w, slots, rows, memo, g.sh.trees, g.enough, g.sh.trees, g.enough + 1);
      arena := LinkUp(arena, stack[t].tail, head);
      stack := stack[..t];
      cur, g := g.open[t] + cur, PassedUp(g, cur);
      a := Succeed(f.head, f.tail);
    }

    /** The frame on top goes on to its next child, with the list spliced onto its own.  */
    method Resume(next: Frame, head: Link, tail: Link) returns (a: Action)
      requires Valid(Succeed(head, tail)) && stack != [] && FrameOk(w, next)
      requires var t := |stack| - 1;
               && next.node == stack[t].node && next.start == stack[t].start
               && next.head == stack[t].head && next.tail == stack[t].tail
               && Advancing(w, next, pos, Forest(g.sh.trees, g.open[t]) + Forest(g.sh.trees, cur), g.enough)
               && Left(w, next) < Left(w, stack[t])
      modifies this
      ensures Valid(a) && CostOf(a) < old(CostOf(Succeed(head, tail)))
    {
      hide Advancing, Settled, SettledAt, ListOk, StackCost, Cost;
      var t := |stack| - 1;
      var f := Adopt(next, head, tail);
      ResumeKeeps(w, root, arena, stack, g, pos, cur, head, tail, next);
      NextCosts(w, stack, MAX_DEPTH, f);
      arena := LinkUp(arena, stack[t].tail, head);
      stack := stack[..t] + [f];
      g, cur := Resumed(g, cur, pos), [];
      a := Enter(Pending(w, f));
    }

    /** A finished rule becomes a node over its list, and is remembered if it is one that is.  */
    method FinishRule(head: Link, tail: Link, ghost tree: Tree) returns (a: Action)
      requires Valid(Succeed(head, tail)) && stack != [] && stack[|stack| - 1].node.Rule?
      requires var f := stack[|stack| - 1];
               && g.open[|stack| - 1] == []
               && f.start <= pos
               && tree == Tree(f.node.id, f.start, pos, Forest(g.sh.trees, cur))
               && Settled(w, f.node, f.start, g.enough, Match(pos, [tree]))
      modifies this
      ensures Valid(a) && CostOf(a) < old(CostOf(Succeed(head, tail)))
    {
      hide Advancing, Settled, SettledAt, ListOk, StackCost, Cost;
      var t := |stack| - 1;
      var f := Adopt(stack[t], head, tail);
      var rule, made := f.node.id, |arena|;
      PopCosts(w, stack, MAX_DEPTH);
      FinishKeeps(w, root, arena, stack, g, pos, cur, head, tail, tree);
      MemoLater(w, slots, rows, memo, g.sh.trees, g.enough, g.sh.trees + [tree], g.enough + 1);
      StoredEntry(w, tree, g.sh.trees, g.enough);
      arena := LinkUp(arena, stack[t].tail, head) + [ParseNode(rule, f.start, pos, f.head, Nil)];
      stack := stack[..t];
      g, cur := Finished(g, cur, tree), [made];
      if slots[rule].Some? {
        RememberKeeps(w, slots, rows, memo, g.sh.trees, g.enough, rule, f.start, Stored(made));
        memo := memo[MemoIndex(w, slots[rule].value, f.start) := Stored(made)];
      }
      a := Succeed(At(made), At(made));
    }

    // -------------------------------------------------------------------------------------------
    // Something did not match

    /** The frame on top is finished and has failed.  */
    method Drop(back: nat) returns (a: Action)
      requires Given() && 1 <= g.enough && StackOk(w, root, arena, stack, g) && 0 < |stack| <= MAX_DEPTH
      requires MemoOk(w, slots, rows, memo, g.sh.trees, g.enough) && back <= |w.tokens|
      requires Settled(w, stack[|stack| - 1].node, stack[|stack| - 1].start, g.enough, Fail)
      modifies this
      ensures Valid(a) && a.Reject? && CostOf(a) < old(StackCost(w, stack, MAX_DEPTH))
      ensures memo == old(memo) && g.enough == old(g.enough) + 1
    {
      hide Advancing, Settled, SettledAt, ListsOk, ListOk, StackCost, Cost, CodeOk, NodeOk;
      var t := |stack| - 1;
      PopKeeps(w, root, arena, stack, g, Fail);
      PopCosts(w, stack, MAX_DEPTH);
      MemoLater(w, slots, rows, memo, g.sh.trees, g.enough, g.sh.trees, g.enough + 1);
      stack := stack[..t];
      g := Popped(g);
      pos := back;
      a := Reject;
    }

    /** The frame on top is finished, with the list it had before the child failed.  */
    method Keep(back: nat) returns (a: Action)
      requires Valid(Reject) && stack != [] && back <= |w.tokens|
      requires Settled(w, stack[|stack| - 1].node, stack[|stack| - 1].start, g.enough,
                       Match(back, Forest(g.sh.trees, g.open[|stack| - 1])))
      modifies this
      ensures Valid(a) && CostOf(a) < old(CostOf(Reject))
    {
      hide Advancing, Settled, SettledAt, ListsOk, ListOk, StackCost, Cost, CodeOk, NodeOk;
      var t := |stack| - 1;
      var f := stack[t];
      assert AdvancingAt(w, stack, g.sh.trees, g.open, g.entered, g.enough, t);
      PopKeeps(w, root, arena, stack, g, Match(back, Forest(g.sh.trees, g.open[t])));
      PopCosts(w, stack, MAX_DEPTH);
      MemoLater(w, slots, rows, memo, g.sh.trees, g.enough, g.sh.trees, g.enough + 1);
      stack := stack[..t];
      cur, g := g.open[t], Popped(g);
      pos := back;
      a := Succeed(f.head, f.tail);
    }

    /** Puts the position back and decides what the frame on top does now.  */
    method SettleFail() returns (a: Action)
      requires Valid(Reject)
      modifies this
      ensures Valid(a)
      ensures a.Done? || CostOf(a) < old(CostOf(Reject))
    {
      hide StackCost, Cost, RunNode, NestedAt, ListsOk;
      if stack == [] {
        return Done(Nil);
      }
      var t := |stack| - 1;
      var f := stack[t];
      assert AdvancingAt(w, stack, g.sh.trees, g.open, g.entered, g.enough, t);
      ghost var forest := Forest(g.sh.trees, g.open[t]);
      match f.node {
        case Rule(rule) =>
          RuleOrSequenceFails(w, f, g.entered[t], forest, g.enough);
          a := Drop(f.start);
          if slots[rule].Some? {
            RememberKeeps(w, slots, rows, memo, g.sh.trees, g.enough, rule, f.start, Failed);
            memo := memo[MemoIndex(w, slots[rule].value, f.start) := Failed];
          }
        case Sequence(_, _) =>
          RuleOrSequenceFails(w, f, g.entered[t], forest, g.enough);
          a := Drop(f.start);
        case Choice(_, _) =>
          a := NextAlternative();
        case Optional(_) =>
          OptionalSkips(w, f, g.entered[t], forest, g.enough);
          a := Keep(f.start);
        case Repeat(_) =>
          RepeatEnds(w, f, g.entered[t], forest, g.enough);
          if f.step == 0 {
            a := Drop(f.mark);
          } else {
            a := Keep(f.mark);
          }
      }
    }

    /** A choice tries the next alternative the filter lets through.  */
    method NextAlternative() returns (a: Action)
      requires Valid(Reject) && stack != [] && stack[|stack| - 1].node.Choice?
      modifies this
      ensures Valid(a) && CostOf(a) < old(CostOf(Reject))
    {
      hide Advancing, Settled, SettledAt, AdvancingAt, NestedAt, ListsOk, StackCost, Cost, MemoOk, SlotsOk,
        RepeatsConsume, RunNode, CodeOk, EntryOk;
      var t := |stack| - 1;
      var f := stack[t];
      ChoiceOnTop(w, root, arena, stack, g, pos, cur);
      pos := f.start;
      var step := Viable(Span(w.code, f.node.start, f.node.len), f.step + 1);
      ChoiceNext(w, f, f.start, g.enough, step);
      if step == f.node.len {
        a := Drop(f.start);
      } else {
        a := Retry(f.(step := step, head := Nil, tail := Nil));
      }
    }

    /** The frame on top starts over with an empty list on a later child.  */
    method Retry(next: Frame) returns (a: Action)
      requires Given() && 1 <= g.enough && StackOk(w, root, arena, stack, g) && 0 < |stack| <= MAX_DEPTH
      requires MemoOk(w, slots, rows, memo, g.sh.trees, g.enough) && pos <= |w.tokens| && FrameOk(w, next)
      requires var f := stack[|stack| - 1];
               && next.node == f.node && next.start == f.start && next.head.Nil? && next.tail.Nil?
               && Advancing(w, next, pos, [], g.enough) && Left(w, next) < Left(w, f)
      modifies this
      ensures Valid(a) && CostOf(a) < old(StackCost(w, stack, MAX_DEPTH))
    {
      hide Advancing, AdvancingAt, NestedAt, ListsOk, StackCost, Cost, MemoOk, SlotsOk, RepeatsConsume, CodeOk, NodeOk;
      RetryKeeps(w, root, arena, stack, g, pos, next);
      NextCosts(w, stack, MAX_DEPTH, next);
      stack := stack[..|stack| - 1] + [next];
      g, cur := Retried(g, pos), [];
      a := Enter(Pending(w, next));
    }

    // -------------------------------------------------------------------------------------------
    // The loop

    /** Runs to an answer.  The loop stops on every table and every input.  */
    method Run(first: Action) returns (result: Link, deep: bool)
      requires Valid(first)
      modifies this
      ensures !deep ==> Valid(Done(result))
      ensures deep ==> forall fuel: nat :: fuel <= MAX_DEPTH ==> RunNode(w, Rule(root), 0, fuel).None?
    {
      var action := first;
      while !action.Done?
        invariant Valid(action)
        decreases !action.Done?, if action.Done? then 0 else CostOf(action)
      {
        match action {
          case Enter(n) =>
            var next, tooDeep := EnterNode(n);
            if tooDeep {
              return Nil, true;
            }
            action := next;
          case Succeed(head, tail) =>
            action := SettleOk(head, tail);
          case Reject =>
            action := SettleFail();
          case Done(_) =>
        }
      }
      return action.result, false;
    }
  }
}
