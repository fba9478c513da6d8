/** The parse tree arena: nodes linked by first child and next sibling, and the sharing discipline
    that lets a memoized rule's children be adopted by more than one parent.

    The `Shadow` is the proof's view of the arena: which tree every node stands for, which nodes are
    its children, and which open list, if any, a node is still part of.  Only the last node of an open
    list ever has its sibling link written.  */
module Arena {
  import opened Peg

  datatype Link = Nil | At(index: nat)

  datatype ParseNode = ParseNode(rule: nat, start: nat, end: nat, firstChild: Link, nextSibling: Link)

  // ---------------------------------------------------------------------------------------------
  // Reading a tree back

  /** Following the links from node `i` reads the tree `t`.  */
  ghost predicate Denotes(arena: seq<ParseNode>, i: nat, t: Tree)
    decreases t, 1
  {
    && i < |arena|
    && arena[i].rule == t.rule && arena[i].start == t.start && arena[i].end == t.end
    && DenotesList(arena, arena[i].firstChild, t.kids)
  }

  ghost predicate DenotesList(arena: seq<ParseNode>, link: Link, forest: seq<Tree>)
    decreases forest, 0
  {
    if forest == [] then link.Nil?
    else
      && link.At?
      && Denotes(arena, link.index, forest[0])
      && DenotesList(arena, arena[link.index].nextSibling, forest[1..])
  }

  /** An arena node reads as at most one tree.  */
  lemma {:induction false} DenotesUnique(arena: seq<ParseNode>, i: nat, t: Tree, u: Tree)
    requires Denotes(arena, i, t) && Denotes(arena, i, u)
    ensures t == u
    decreases t, 1
  {
    DenotesListUnique(arena, arena[i].firstChild, t.kids, u.kids);
  }

  lemma {:induction false} DenotesListUnique(arena: seq<ParseNode>, link: Link, f: seq<Tree>, g: seq<Tree>)
    requires DenotesList(arena, link, f) && DenotesList(arena, link, g)
    ensures f == g
    decreases f, 0
  {
    if f != [] && g != [] {
      DenotesUnique(arena, link.index, f[0], g[0]);
      DenotesListUnique(arena, arena[link.index].nextSibling, f[1..], g[1..]);
      assert f == [f[0]] + f[1..] && g == [g[0]] + g[1..];
    }
  }

  // ---------------------------------------------------------------------------------------------
  // The shadow

  datatype Shadow = Shadow(trees: seq<Tree>, kids: seq<seq<nat>>, owner: seq<int>)

  const CLOSED: int := -1

  ghost predicate Inside(ids: seq<nat>, size: nat) {
    forall i :: 0 <= i < |ids| ==> ids[i] < size
  }

  /** What follows position `i` of a list.  */
  ghost function Next(ids: seq<nat>, i: nat): (link: Link) {
    if i + 1 < |ids| then At(ids[i + 1]) else Nil
  }

  /** `ids`, in order, are the nodes linked from `head`.  */
  ghost predicate Linked(arena: seq<ParseNode>, ids: seq<nat>, head: Link) {
    && Inside(ids, |arena|)
    && head == (if ids == [] then Nil else At(ids[0]))
    && forall i :: 0 <= i < |ids| ==> arena[ids[i]].nextSibling == Next(ids, i)
  }

  ghost predicate EndsAt(ids: seq<nat>, tail: Link) {
    tail == (if ids == [] then Nil else At(ids[|ids| - 1]))
  }

  ghost predicate Owned(owner: seq<int>, ids: seq<nat>, who: int)
    requires Inside(ids, |owner|)
  {
    forall i :: 0 <= i < |ids| ==> owner[ids[i]] == who
  }

  /** The trees a list of nodes stands for.  */
  ghost function Forest(trees: seq<Tree>, ids: seq<nat>): (forest: seq<Tree>)
    requires Inside(ids, |trees|)
    ensures |forest| == |ids|
  {
    seq(|ids|, i requires 0 <= i < |ids| => trees[ids[i]])
  }

  lemma ForestJoins(trees: seq<Tree>, ids: seq<nat>, more: seq<nat>)
    requires Inside(ids, |trees|) && Inside(more, |trees|)
    ensures Inside(ids + more, |trees|)
    ensures Forest(trees, ids + more) == Forest(trees, ids) + Forest(trees, more)
  {}

  ghost predicate NodeShadowed(arena: seq<ParseNode>, sh: Shadow, n: nat)
    requires n < |arena| == |sh.trees| == |sh.kids| == |sh.owner|
  {
    var t := sh.trees[n];
    && arena[n].rule == t.rule && arena[n].start == t.start && arena[n].end == t.end
    && Inside(sh.kids[n], n)
    && Linked(arena, sh.kids[n], arena[n].firstChild)
    && Owned(sh.owner, sh.kids[n], CLOSED)
    && Forest(sh.trees, sh.kids[n]) == t.kids
  }

  /** Every node stands for the tree the shadow says, over children nobody will relink.  */
  ghost predicate ArenaOk(arena: seq<ParseNode>, sh: Shadow) {
    && |arena| == |sh.trees| == |sh.kids| == |sh.owner|
    && forall n :: 0 <= n < |arena| ==> NodeShadowed(arena, sh, n)
  }

  /** One open list: its nodes, linked from `head` to `tail`, all owned by `who`.  */
  ghost predicate ListOk(arena: seq<ParseNode>, sh: Shadow, ids: seq<nat>, head: Link, tail: Link, who: int)
    requires |arena| == |sh.owner|
  {
    Linked(arena, ids, head) && EndsAt(ids, tail) && Owned(sh.owner, ids, who)
  }

  lemma {:induction false} ShadowDenotes(arena: seq<ParseNode>, sh: Shadow, n: nat)
    requires ArenaOk(arena, sh) && n < |arena|
    ensures Denotes(arena, n, sh.trees[n])
    decreases n, 1
  {
    assert NodeShadowed(arena, sh, n);
    ShadowDenotesList(arena, sh, n, 0);
    assert Forest(sh.trees, sh.kids[n])[0..] == sh.trees[n].kids;
  }

  lemma {:induction false} ShadowDenotesList(arena: seq<ParseNode>, sh: Shadow, n: nat, from: nat)
    requires ArenaOk(arena, sh) && n < |arena| && from <= |sh.kids[n]|
    requires NodeShadowed(arena, sh, n)
    ensures DenotesList(arena, if from < |sh.kids[n]| then At(sh.kids[n][from]) else Nil,
                        Forest(sh.trees, sh.kids[n])[from..])
    decreases n, 0, |sh.kids[n]| - from
  {
    var ids := sh.kids[n];
    var forest := Forest(sh.trees, ids);
    if from < |ids| {
      ShadowDenotes(arena, sh, ids[from]);
      ShadowDenotesList(arena, sh, n, from + 1);
      assert forest[from..][1..] == forest[from + 1..];
    }
  }

  // ---------------------------------------------------------------------------------------------
  // The three writes

  function SetOwner(owner: seq<int>, ids: seq<nat>, who: int): (r: seq<int>)
    ensures |r| == |owner|
    ensures forall n :: 0 <= n < |owner| ==> r[n] == if n in ids then who else owner[n]
  {
    seq(|owner|, n requires 0 <= n < |owner| => if n in ids then who else owner[n])
  }

  /** The sibling link from the end of one list to the start of the next.  */
  function LinkUp(arena: seq<ParseNode>, tail: Link, head: Link): (r: seq<ParseNode>)
    ensures |r| == |arena|
  {
    if head.At? && tail.At? && tail.index < |arena|
    then arena[tail.index := arena[tail.index].(nextSibling := head)]
    else arena
  }

  /** Splicing the list owned by `child` after the list owned by `parent` leaves every node's tree as
      it was and makes one list owned by `parent`.  */
  lemma SpliceArena(arena: seq<ParseNode>, sh: Shadow,
                    ids: seq<nat>, head: Link, tail: Link, parent: int,
                    more: seq<nat>, moreHead: Link, moreTail: Link, child: int)
    requires ArenaOk(arena, sh) && parent != child && parent != CLOSED && child != CLOSED
    requires ListOk(arena, sh, ids, head, tail, parent)
    requires ListOk(arena, sh, more, moreHead, moreTail, child)
    ensures var later := sh.(owner := SetOwner(sh.owner, more, parent));
            var linked := LinkUp(arena, tail, moreHead);
            && ArenaOk(linked, later)
            && ListOk(linked, later, ids + more,
                      if head.Nil? then moreHead else head, if more == [] then tail else moreTail, parent)
  {
    var later := sh.(owner := SetOwner(sh.owner, more, parent));
    var linked := LinkUp(arena, tail, moreHead);
    forall n | 0 <= n < |arena| ensures NodeShadowed(linked, later, n) {
      assert NodeShadowed(arena, sh, n);
    }
    var all := ids + more;
    forall i | 0 <= i < |all|
      ensures all[i] < |linked|
      ensures linked[all[i]].nextSibling == Next(all, i)
      ensures later.owner[all[i]] == parent
    {
      if i < |ids| {
        assert sh.owner[ids[i]] == parent;
        if i + 1 < |ids| && more != [] {
          assert arena[ids[i]].nextSibling.At? && arena[ids[|ids| - 1]].nextSibling.Nil?;
        }
      } else {
        assert sh.owner[more[i - |ids|]] == child;
      }
    }
  }

  /** A list with another owner does not notice.  */
  lemma SpliceOther(arena: seq<ParseNode>, sh: Shadow, ids: seq<nat>, tail: Link, parent: int,
                    more: seq<nat>, moreHead: Link, child: int,
                    other: seq<nat>, otherHead: Link, otherTail: Link, who: int)
    requires ArenaOk(arena, sh) && who != parent && who != child
    requires Inside(ids, |arena|) && Inside(more, |arena|)
    requires EndsAt(ids, tail) && Owned(sh.owner, ids, parent) && Owned(sh.owner, more, child)
    requires ListOk(arena, sh, other, otherHead, otherTail, who)
    ensures ListOk(LinkUp(arena, tail, moreHead), sh.(owner := SetOwner(sh.owner, more, parent)),
                   other, otherHead, otherTail, who)
  {
    forall i | 0 <= i < |other| ensures other[i] !in more {
    }
    if tail.At? {
      assert tail.index == ids[|ids| - 1];
    }
  }

  lemma LinkedGrows(arena: seq<ParseNode>, node: ParseNode, ids: seq<nat>, head: Link)
    requires Linked(arena, ids, head)
    ensures Linked(arena + [node], ids, head)
  {
    forall i | 0 <= i < |ids| ensures (arena + [node])[ids[i]] == arena[ids[i]] {
    }
  }

  /** A finished rule becomes a node over its list, which nobody relinks again.  */
  lemma CloseList(arena: seq<ParseNode>, sh: Shadow, ids: seq<nat>, head: Link, tail: Link, who: int,
                  rule: nat, start: nat, end: nat)
    requires ArenaOk(arena, sh) && who != CLOSED
    requires ListOk(arena, sh, ids, head, tail, who)
    ensures var tree := Tree(rule, start, end, Forest(sh.trees, ids));
            var later := Shadow(sh.trees + [tree], sh.kids + [ids], SetOwner(sh.owner, ids, CLOSED) + [who]);
            var grown := arena + [ParseNode(rule, start, end, head, Nil)];
            ArenaOk(grown, later) && ListOk(grown, later, [|arena|], At(|arena|), At(|arena|), who)
  {
    var tree := Tree(rule, start, end, Forest(sh.trees, ids));
    var later := Shadow(sh.trees + [tree], sh.kids + [ids], SetOwner(sh.owner, ids, CLOSED) + [who]);
    var grown := arena + [ParseNode(rule, start, end, head, Nil)];
    forall n | 0 <= n < |grown| ensures NodeShadowed(grown, later, n) {
      if n < |arena| {
        assert NodeShadowed(arena, sh, n);
        LinkedGrows(arena, grown[|arena|], sh.kids[n], arena[n].firstChild);
        assert Forest(later.trees, later.kids[n]) == Forest(sh.trees, sh.kids[n]);
      } else {
        LinkedGrows(arena, grown[|arena|], ids, head);
        assert Forest(later.trees, ids) == Forest(sh.trees, ids);
      }
    }
  }

  /** Adopting a memoized node copies it and shares its children.  */
  lemma CopyNode(arena: seq<ParseNode>, sh: Shadow, source: nat, who: int)
    requires ArenaOk(arena, sh) && source < |arena|
    ensures var later := Shadow(sh.trees + [sh.trees[source]], sh.kids + [sh.kids[source]], sh.owner + [who]);
            var grown := arena + [arena[source].(nextSibling := Nil)];
            ArenaOk(grown, later) && ListOk(grown, later, [|arena|], At(|arena|), At(|arena|), who)
  {
    var later := Shadow(sh.trees + [sh.trees[source]], sh.kids + [sh.kids[source]], sh.owner + [who]);
    var grown := arena + [arena[source].(nextSibling := Nil)];
    forall n | 0 <= n < |grown| ensures NodeShadowed(grown, later, n) {
      assert NodeShadowed(arena, sh, if n < |arena| then n else source);
      var old_ := if n < |arena| then n else source;
      LinkedGrows(arena, grown[|arena|], sh.kids[old_], arena[old_].firstChild);
      assert Forest(later.trees, later.kids[n]) == Forest(sh.trees, sh.kids[old_]);
    }
  }

  /** Appending a node disturbs no open list, unless its nodes were the ones closed.  */
  lemma GrowOther(arena: seq<ParseNode>, sh: Shadow, node: ParseNode, tree: Tree, ids: seq<nat>,
                  closing: seq<nat>, owner: int,
                  other: seq<nat>, otherHead: Link, otherTail: Link, who: int)
    requires ArenaOk(arena, sh) && Inside(closing, |arena|)
    requires ListOk(arena, sh, other, otherHead, otherTail, who)
    requires forall i :: 0 <= i < |closing| ==> sh.owner[closing[i]] != who
    ensures ListOk(arena + [node],
                   Shadow(sh.trees + [tree], sh.kids + [ids], SetOwner(sh.owner, closing, CLOSED) + [owner]),
                   other, otherHead, otherTail, who)
  {
    LinkedGrows(arena, node, other, otherHead);
    forall i | 0 <= i < |other| ensures other[i] !in closing {
    }
  }
}
