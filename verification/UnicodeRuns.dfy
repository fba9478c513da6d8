/** The run table of a two-stage lookup over code points.  */
module UnicodeRuns {
  import opened Sets

  datatype Fault = ShortFirst | ShortSecond | ShortProperties

  datatype Result<+T> = Ok(value: T) | Err(fault: Fault)

  const LIMIT: nat := 0x11_0000

  /** What the two-stage lookup gives a code point.  */
  function Lookup<C>(stage1: seq<nat>, stage2: seq<nat>, classes: seq<C>, cp: nat): (r: Result<C>) {
    if cp / 256 >= |stage1| then Err(ShortFirst)
    else
      var second := stage1[cp / 256] + cp % 256;
      if second >= |stage2| then Err(ShortSecond)
      else if stage2[second] >= |classes| then Err(ShortProperties)
      else Ok(classes[stage2[second]])
  }

  /** The class of the row a code point lies in, rows reaching up to the next one's start.  */
  function ClassAt<C>(rows: seq<(nat, C)>, cp: nat): C
    requires rows != [] && rows[0].0 <= cp
  {
    if rows[|rows| - 1].0 <= cp then rows[|rows| - 1].1 else ClassAt(rows[..|rows| - 1], cp)
  }

  /** A table of rows whose starts rise from zero.  */
  ghost predicate IsTable<C(!new)>(rows: seq<(nat, C)>) {
    && rows != [] && rows[0].0 == 0
    && forall i, j :: 0 <= i < j < |rows| ==> rows[i].0 < rows[j].0
  }

  /** The table and the lookup agree on every code point below `limit`, and no row starts past it.  */
  ghost predicate Represents<C(!new)>(rows: seq<(nat, C)>, f: nat -> Result<C>, limit: nat) {
    && IsTable(rows)
    && (forall i :: 0 <= i < |rows| ==> rows[i].0 < limit)
    && (forall cp: nat :: cp < limit ==> f(cp) == Ok(ClassAt(rows, cp)))
  }

  /** No row repeats the class of the one before it.  */
  ghost predicate Tight<C(!new)>(rows: seq<(nat, C)>) {
    forall i :: 0 < i < |rows| ==> rows[i].1 != Previous(rows, i).1
  }

  ghost function Previous<C>(rows: seq<(nat, C)>, i: nat): (nat, C)
    requires 0 < i < |rows|
  {
    rows[i - 1]
  }

  /** The two-stage lookup as a function of the code point.  */
  function Stages<C>(stage1: seq<nat>, stage2: seq<nat>, classes: seq<C>): nat -> Result<C> {
    (cp: nat) => Lookup(stage1, stage2, classes, cp)
  }

  /** `cp` is the first code point the stages do not cover.  */
  ghost predicate FirstFault<C>(f: nat -> Result<C>, cp: nat, fault: Fault) {
    f(cp) == Err(fault) && forall before: nat :: before < cp ==> f(before).Ok?
  }

  /** Walks every code point through the lookup once, starting a row where the class changes.  The rows are a
      table of the lookup with no row repeating the one before it, or the walk stops at the first code point
      the stages do not cover.  */
  method Runs<C(!new, ==)>(stage1: seq<nat>, stage2: seq<nat>, classes: seq<C>)
    returns (r: Result<seq<(nat, C)>>)
    ensures r.Ok? ==> Tight(r.value) && Represents(r.value, Stages(stage1, stage2, classes), LIMIT)
    ensures r.Err? ==> exists cp: nat :: cp < LIMIT && FirstFault(Stages(stage1, stage2, classes), cp, r.fault)
  {
    hide Tight, Represents, Lookup;
    var rows: seq<(nat, C)> := [];
    ghost var f := Stages(stage1, stage2, classes);
    for cp := 0 to LIMIT
      invariant if cp == 0 then rows == [] else Tight(rows) && Represents(rows, f, cp)
      invariant forall before: nat :: before < cp ==> f(before).Ok?
    {
      var found := Lookup(stage1, stage2, classes, cp);
      assert f(cp) == found;
      if found.Err? {
        assert FirstFault(f, cp, found.fault);
        return Err(found.fault);
      }
      RunOn(rows, f, cp, found.value);
      if rows == [] || rows[|rows| - 1].1 != found.value {
        rows := rows + [(cp, found.value)];
      }
    }
    return Ok(rows);
  }

  /** One more code point: the last row covers it, or a new row starts at it.  */
  lemma RunOn<C(!new)>(rows: seq<(nat, C)>, f: nat -> Result<C>, cp: nat, class_: C)
    requires if cp == 0 then rows == [] else Tight(rows) && Represents(rows, f, cp)
    requires f(cp) == Ok(class_)
    ensures var after := if rows == [] || rows[|rows| - 1].1 != class_ then rows + [(cp, class_)] else rows;
            Tight(after) && Represents(after, f, cp + 1)
  {
    if rows == [] || rows[|rows| - 1].1 != class_ {
      NewRow(rows, f, cp, class_);
    }
  }

  lemma NewRow<C(!new)>(rows: seq<(nat, C)>, f: nat -> Result<C>, cp: nat, class_: C)
    requires if cp == 0 then rows == [] else Tight(rows) && Represents(rows, f, cp)
    requires f(cp) == Ok(class_) && (rows == [] || rows[|rows| - 1].1 != class_)
    ensures Tight(rows + [(cp, class_)]) && Represents(rows + [(cp, class_)], f, cp + 1)
  {
    var after := rows + [(cp, class_)];
    assert after[..|after| - 1] == rows;
    forall i | 0 < i < |after| ensures after[i].1 != Previous(after, i).1 {
      assert i < |rows| ==> after[i] == rows[i] && Previous(after, i) == Previous(rows, i);
    }
    forall c: nat | c < cp + 1 ensures f(c) == Ok(ClassAt(after, c)) {
      assert c < cp ==> ClassAt(after, c) == ClassAt(rows, c);
    }
  }

  // ---------------------------------------------------------------------------------------------
  // No smaller table

  /** A code point between two starts has the class of the row it is in.  */
  lemma {:induction false} ClassIn<C(!new)>(rows: seq<(nat, C)>, i: nat, cp: nat)
    requires IsTable(rows) && i < |rows| && rows[i].0 <= cp && (i + 1 < |rows| ==> cp < rows[i + 1].0)
    ensures ClassAt(rows, cp) == rows[i].1
    decreases |rows|
  {
    if i + 1 < |rows| {
      assert rows[i + 1].0 <= rows[|rows| - 1].0;
      ClassIn(rows[..|rows| - 1], i, cp);
    }
  }

  /** The row a code point is in.  */
  lemma RowOf<C(!new)>(rows: seq<(nat, C)>, cp: nat) returns (i: nat)
    requires IsTable(rows)
    ensures i < |rows| && rows[i].0 <= cp && (i + 1 < |rows| ==> cp < rows[i + 1].0)
  {
    i := 0;
    while i + 1 < |rows| && rows[i + 1].0 <= cp
      invariant i < |rows| && rows[i].0 <= cp
    {
      i := i + 1;
    }
  }

  /** Wherever a tight table starts a row, every table of the same lookup does.  */
  lemma StartsForced<C(!new)>(rows: seq<(nat, C)>, other: seq<(nat, C)>, f: nat -> Result<C>, limit: nat, i: nat)
    requires Tight(rows) && Represents(rows, f, limit) && Represents(other, f, limit) && i < |rows|
    ensures exists j :: 0 <= j < |other| && other[j].0 == rows[i].0
  {
    var cp := rows[i].0;
    var j := RowOf(other, cp);
    if i == 0 {
      assert other[0].0 == cp;
    } else if other[j].0 != cp {
      ClassIn(other, j, cp);
      ClassIn(other, j, cp - 1);
      assert rows[i - 1].0 <= cp - 1;
      ClassIn(rows, i, cp);
      ClassIn(rows, i - 1, cp - 1);
    }
  }

  ghost function Starts<C>(rows: seq<(nat, C)>): set<nat> {
    set i | 0 <= i < |rows| :: rows[i].0
  }

  lemma {:induction false} StartsCount<C(!new)>(rows: seq<(nat, C)>)
    requires forall i, j :: 0 <= i < j < |rows| ==> rows[i].0 < rows[j].0
    ensures |Starts(rows)| == |rows|
  {
    if rows != [] {
      var front := rows[..|rows| - 1];
      StartsCount(front);
      assert Starts(rows) == Starts(front) + {rows[|rows| - 1].0};
    } else {
      assert Starts(rows) == {};
    }
  }

  /** No table of the same lookup has fewer rows than a tight one.  */
  lemma TightIsLeast<C(!new)>(rows: seq<(nat, C)>, other: seq<(nat, C)>, f: nat -> Result<C>, limit: nat)
    requires Tight(rows) && Represents(rows, f, limit) && Represents(other, f, limit)
    ensures |rows| <= |other|
  {
    forall i | 0 <= i < |rows| ensures rows[i].0 in Starts(other) {
      StartsForced(rows, other, f, limit, i);
    }
    StartsCount(rows);
    StartsCount(other);
    SubsetSmaller(Starts(rows), Starts(other));
  }

  // ---------------------------------------------------------------------------------------------
  // What the two stages hold

  /** Place `i` of the block `k` points at holds the class of its code point.  */
  ghost predicate PlaceHolds<C(!new)>(stage1: seq<nat>, stage2: seq<nat>, classes: seq<C>, k: nat, i: nat,
                                          class_: nat -> C) {
    && k < |stage1| && stage1[k] + i < |stage2| && stage2[stage1[k] + i] < |classes|
    && classes[stage2[stage1[k] + i]] == class_(256 * k + i)
  }

  /** The block of every 256 code points holds their classes in order.  */
  ghost predicate BlocksHold<C(!new)>(stage1: seq<nat>, stage2: seq<nat>, classes: seq<C>, class_: nat -> C) {
    forall k: nat, i: nat :: k < |stage1| && i < 256 ==>
      PlaceHolds(stage1, stage2, classes, k, i, class_)
  }

  /** The lookup gives every covered code point its class exactly when the blocks hold the classes, and no code
      point past the last block has one.  */
  lemma LookupMeans<C(!new)>(stage1: seq<nat>, stage2: seq<nat>, classes: seq<C>, class_: nat -> C)
    ensures (forall cp: nat :: cp < 256 * |stage1| ==> Lookup(stage1, stage2, classes, cp) == Ok(class_(cp)))
       <==> BlocksHold(stage1, stage2, classes, class_)
    ensures forall cp: nat :: cp >= 256 * |stage1| <==> Lookup(stage1, stage2, classes, cp) == Err(ShortFirst)
  {
    if forall cp: nat :: cp < 256 * |stage1| ==> Lookup(stage1, stage2, classes, cp) == Ok(class_(cp)) {
      forall k: nat, i: nat | k < |stage1| && i < 256
        ensures PlaceHolds(stage1, stage2, classes, k, i, class_)
      {
        var cp := 256 * k + i;
        assert cp / 256 == k && cp % 256 == i;
        assert Lookup(stage1, stage2, classes, cp) == Ok(class_(cp));
      }
    }
    if BlocksHold(stage1, stage2, classes, class_) {
      forall cp: nat | cp < 256 * |stage1|
        ensures Lookup(stage1, stage2, classes, cp) == Ok(class_(cp))
      {
        var k: nat, i: nat := cp / 256, cp % 256;
        assert cp == 256 * k + i;
        assert PlaceHolds(stage1, stage2, classes, k, i, class_);
      }
    }
  }

  /** So a table of the stages has every code point in the row of its class.  */
  lemma TableOfClasses<C(!new)>(rows: seq<(nat, C)>, stage1: seq<nat>, stage2: seq<nat>, classes: seq<C>,
                                class_: nat -> C)
    requires 256 * |stage1| >= LIMIT && BlocksHold(stage1, stage2, classes, class_)
    requires Represents(rows, Stages(stage1, stage2, classes), LIMIT)
    ensures forall cp: nat :: cp < LIMIT ==> ClassAt(rows, cp) == class_(cp)
  {
    LookupMeans(stage1, stage2, classes, class_);
    forall cp: nat | cp < LIMIT ensures ClassAt(rows, cp) == class_(cp) {
      assert Stages(stage1, stage2, classes)(cp) == Ok(ClassAt(rows, cp));
    }
  }
}
