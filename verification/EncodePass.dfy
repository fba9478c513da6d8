/** The parallel encode pass: workers take units of work off a shared counter.  */
module EncodePass {

  /** A unit of work: one chunk of one column.  */
  type Unit = (nat, nat)

  const ROW_GROUP: nat := 122_880

  function Min(a: nat, b: nat): nat {
    if a < b then a else b
  }

  // ---------------------------------------------------------------------------------------------
  // Chunks of a column

  function Chunks(rows: nat): nat {
    (rows + ROW_GROUP - 1) / ROW_GROUP
  }

  function Cut<T>(values: seq<T>, chunk: nat): seq<T>
    requires chunk < Chunks(|values|)
  {
    var from := chunk * ROW_GROUP;
    values[from..Min(from + ROW_GROUP, |values|)]
  }

  /** The chunks up to one, end to end.  */
  ghost function Joined<T>(values: seq<T>, count: nat): seq<T>
    requires count <= Chunks(|values|)
  {
    if count == 0 then [] else Joined(values, count - 1) + Cut(values, count - 1)
  }

  lemma {:induction false} JoinedIs<T>(values: seq<T>, count: nat)
    requires count <= Chunks(|values|)
    ensures Joined(values, count) == values[..Min(count * ROW_GROUP, |values|)]
  {
    if count > 0 {
      JoinedIs(values, count - 1);
    }
  }

  /** The chunks of a column, end to end, are the column.  None is empty, and all but the last are full.  */
  lemma CutTiles<T>(values: seq<T>)
    ensures Joined(values, Chunks(|values|)) == values
    ensures forall chunk: nat :: chunk < Chunks(|values|) ==> 0 < |Cut(values, chunk)| <= ROW_GROUP
    ensures forall chunk: nat {:trigger Cut(values, chunk)} ::
              chunk + 1 < Chunks(|values|) ==> |Cut(values, chunk)| == ROW_GROUP
  {
    JoinedIs(values, Chunks(|values|));
    assert values[..|values|] == values;
  }

  // ---------------------------------------------------------------------------------------------
  // The work list

  /** Every chunk of every column.  */
  ghost predicate IsUnit(lengths: seq<nat>, u: Unit) {
    u.0 < |lengths| && u.1 < Chunks(lengths[u.0])
  }

  ghost predicate Lists(lengths: seq<nat>, work: seq<Unit>) {
    forall u: Unit :: multiset(work)[u] == if IsUnit(lengths, u) then 1 else 0
  }

  predicate Heaviest(weight: Unit -> nat, work: seq<Unit>) {
    forall i, j :: 0 <= i < j < |work| ==> weight(work[i]) >= weight(work[j])
  }

  /** Lists every chunk of every column once, heaviest first.  */
  method BuildWork(lengths: seq<nat>, weight: Unit -> nat) returns (work: seq<Unit>)
    ensures Lists(lengths, work) && Heaviest(weight, work)
  {
    var units: seq<Unit> := [];
    for column := 0 to |lengths|
      invariant forall u: Unit :: multiset(units)[u] == if u.0 < column && IsUnit(lengths, u) then 1 else 0
    {
      for chunk := 0 to Chunks(lengths[column])
        invariant forall u: Unit :: multiset(units)[u]
                     == if IsUnit(lengths, u) && (u.0 < column || (u.0 == column && u.1 < chunk)) then 1 else 0
      {
        units := units + [(column, chunk)];
      }
    }
    work := SortByWeight(units, weight);
  }

  method SortByWeight(units: seq<Unit>, weight: Unit -> nat) returns (work: seq<Unit>)
    ensures multiset(work) == multiset(units) && Heaviest(weight, work)
  {
    work := [];
    for i := 0 to |units|
      invariant multiset(work) == multiset(units[..i]) && Heaviest(weight, work)
    {
      assert units[..i + 1] == units[..i] + [units[i]];
      work := Place(work, weight, units[i]);
    }
    assert units[..|units|] == units;
  }

  /** Puts a unit after the ones no lighter than it.  */
  method Place(work: seq<Unit>, weight: Unit -> nat, unit: Unit) returns (r: seq<Unit>)
    requires Heaviest(weight, work)
    ensures Heaviest(weight, r) && multiset(r) == multiset(work) + multiset{unit}
  {
    hide Heaviest;
    var at := |work|;
    while at > 0 && weight(work[at - 1]) < weight(unit)
      invariant 0 <= at <= |work| && forall j :: at <= j < |work| ==> weight(work[j]) < weight(unit)
    {
      at := at - 1;
    }
    PlacedInOrder(work, weight, unit, at);
    PlacedOnce(work, unit, at);
    r := work[..at] + [unit] + work[at..];
  }

  lemma PlacedOnce(work: seq<Unit>, unit: Unit, at: nat)
    requires at <= |work|
    ensures multiset(work[..at] + [unit] + work[at..]) == multiset(work) + multiset{unit}
  {
    assert work == work[..at] + work[at..];
  }

  lemma PlacedInOrder(work: seq<Unit>, weight: Unit -> nat, unit: Unit, at: nat)
    requires Heaviest(weight, work) && at <= |work|
    requires at > 0 ==> weight(work[at - 1]) >= weight(unit)
    requires forall j :: at <= j < |work| ==> weight(work[j]) <= weight(unit)
    ensures Heaviest(weight, work[..at] + [unit] + work[at..])
  {
    var r := work[..at] + [unit] + work[at..];
    forall i, j | 0 <= i < j < |r| ensures weight(r[i]) >= weight(r[j]) {
      assert r[i] == if i < at then work[i] else if i == at then unit else work[i - 1];
      assert r[j] == if j < at then work[j] else if j == at then unit else work[j - 1];
    }
  }

  // ---------------------------------------------------------------------------------------------
  // The workers

  datatype Worker =
    | Ready               // about to take a number
    | Holding(at: nat)    // encoding the unit at `at`
    | Finished            // came back with nothing left to do
    | Failed(at: nat)     // came back with an encoding error

  /** The shared counter, the workers, and the numbers already encoded, earliest first.  */
  datatype State = State(next: nat, workers: seq<Worker>, done: seq<nat>)

  ghost predicate Initial(s: State, threads: nat) {
    s == State(0, seq(threads, _ => Ready), [])
  }

  /** A worker takes the next number, and stops when it is past the work.  */
  ghost predicate Takes(size: nat, s: State, t: State, w: nat) {
    && w < |s.workers| && s.workers[w].Ready?
    && t == State(s.next + 1, s.workers[w := if s.next < size then Holding(s.next) else Finished], s.done)
  }

  /** A worker encodes the unit it holds.  */
  ghost predicate Encodes(s: State, t: State, w: nat) {
    && w < |s.workers| && s.workers[w].Holding?
    && t == State(s.next, s.workers[w := Ready], s.done + [s.workers[w].at])
  }

  ghost predicate Fails(s: State, t: State, w: nat) {
    && w < |s.workers| && s.workers[w].Holding?
    && t == State(s.next, s.workers[w := Failed(s.workers[w].at)], s.done)
  }

  ghost predicate Step(size: nat, s: State, t: State, w: nat) {
    Takes(size, s, t, w) || Encodes(s, t, w) || Fails(s, t, w)
  }

  /** Any interleaving: `moves[i]` is the worker that makes the step after `states[i]`.  */
  ghost predicate IsRun(size: nat, threads: nat, states: seq<State>, moves: seq<nat>) {
    && |states| == |moves| + 1
    && Initial(states[0], threads)
    && forall i :: 0 <= i < |moves| ==> Step(size, states[i], After(states, i), moves[i])
  }

  ghost function After(states: seq<State>, i: nat): State
    requires i + 1 < |states|
  {
    states[i + 1]
  }

  // ---------------------------------------------------------------------------------------------
  // What every interleaving keeps

  /** How many workers have number `n` and have not encoded it.  */
  ghost function Held(workers: seq<Worker>, n: nat): nat {
    if workers == [] then 0
    else (if (workers[0].Holding? || workers[0].Failed?) && workers[0].at == n then 1 else 0) + Held(workers[1..], n)
  }

  lemma {:induction false} HeldUpdates(workers: seq<Worker>, w: nat, v: Worker, n: nat)
    requires w < |workers|
    ensures Held(workers[w := v], n) == Held(workers, n) - Held([workers[w]], n) + Held([v], n)
    ensures Held([workers[w]], n) <= Held(workers, n)
  {
    if w == 0 {
      assert workers[0 := v][1..] == workers[1..];
    } else {
      HeldUpdates(workers[1..], w - 1, v, n);
      assert workers[w := v][1..] == workers[1..][w - 1 := v];
    }
  }

  lemma {:induction false} HeldNone(workers: seq<Worker>, n: nat)
    requires forall w :: 0 <= w < |workers| ==> workers[w].Ready? || workers[w].Finished?
    ensures Held(workers, n) == 0
  {
    if workers != [] {
      HeldNone(workers[1..], n);
    }
  }

  /** Every number handed out is in one place: encoded once, or with one worker.  A worker stops only when
      every number has been handed out.  */
  ghost predicate Conserves(size: nat, s: State) {
    && (forall n: nat :: multiset(s.done)[n] + Held(s.workers, n) == if n < Min(s.next, size) then 1 else 0)
    && (forall w :: 0 <= w < |s.workers| && s.workers[w].Finished? ==> size <= s.next)
  }

  lemma StepConserves(size: nat, s: State, t: State, w: nat)
    requires Conserves(size, s) && Step(size, s, t, w)
    ensures Conserves(size, t) && |t.workers| == |s.workers|
  {
    forall n: nat ensures multiset(t.done)[n] + Held(t.workers, n) == if n < Min(t.next, size) then 1 else 0 {
      HeldUpdates(s.workers, w, t.workers[w], n);
    }
  }

  lemma InitialConserves(size: nat, threads: nat, s: State)
    requires Initial(s, threads)
    ensures Conserves(size, s)
  {
    forall n: nat ensures Held(s.workers, n) == 0 {
      HeldNone(s.workers, n);
    }
  }

  lemma {:induction false} RunConserves(size: nat, threads: nat, states: seq<State>, moves: seq<nat>, i: nat)
    requires IsRun(size, threads, states, moves) && i < |states|
    ensures Conserves(size, states[i]) && |states[i].workers| == threads
  {
    hide Conserves, Step;
    if i == 0 {
      InitialConserves(size, threads, states[0]);
    } else {
      RunConserves(size, threads, states, moves, i - 1);
      assert After(states, i - 1) == states[i];
      StepConserves(size, states[i - 1], states[i], moves[i - 1]);
    }
  }

  /** No interleaving encodes a unit twice.  */
  lemma NeverTwice(size: nat, threads: nat, states: seq<State>, moves: seq<nat>, i: nat, n: nat)
    requires IsRun(size, threads, states, moves) && i < |states|
    ensures multiset(states[i].done)[n] <= 1
  {
    RunConserves(size, threads, states, moves, i);
    assert multiset(states[i].done)[n] + Held(states[i].workers, n) <= 1;
  }

  /** Every worker has come back without an error, which is what the pass needs to succeed.  */
  ghost predicate Succeeds(s: State) {
    forall w :: 0 <= w < |s.workers| ==> s.workers[w].Finished?
  }

  /** When the pass succeeds, every unit was encoded exactly once.  */
  lemma OnceEach(size: nat, threads: nat, states: seq<State>, moves: seq<nat>, i: nat, n: nat)
    requires IsRun(size, threads, states, moves) && i < |states| && 0 < threads && Succeeds(states[i])
    ensures multiset(states[i].done)[n] == if n < size then 1 else 0
  {
    RunConserves(size, threads, states, moves, i);
    HeldNone(states[i].workers, n);
    assert states[i].workers[0].Finished?;
  }

  // ---------------------------------------------------------------------------------------------
  // Every run ends

  ghost function Left(worker: Worker): nat {
    match worker
    case Ready => 1
    case Holding(_) => 2
    case _ => 0
  }

  ghost function LeftAll(workers: seq<Worker>): nat {
    if workers == [] then 0 else Left(workers[0]) + LeftAll(workers[1..])
  }

  /** How many steps a state can still make.  */
  ghost function Budget(size: nat, s: State): nat {
    2 * (size - Min(s.next, size)) + LeftAll(s.workers)
  }

  lemma {:induction false} LeftUpdates(workers: seq<Worker>, w: nat, v: Worker)
    requires w < |workers|
    ensures LeftAll(workers[w := v]) == LeftAll(workers) - Left(workers[w]) + Left(v)
  {
    if w == 0 {
      assert workers[0 := v][1..] == workers[1..];
    } else {
      LeftUpdates(workers[1..], w - 1, v);
      assert workers[w := v][1..] == workers[1..][w - 1 := v];
    }
  }

  lemma StepSpends(size: nat, s: State, t: State, w: nat)
    requires Step(size, s, t, w)
    ensures Budget(size, t) < Budget(size, s)
  {
    LeftUpdates(s.workers, w, t.workers[w]);
  }

  lemma {:induction false} LeftAtFirst(threads: nat)
    ensures LeftAll(seq(threads, _ => Ready)) == threads
  {
    if threads > 0 {
      LeftAtFirst(threads - 1);
      assert seq(threads, _ => Ready)[1..] == seq(threads - 1, _ => Ready);
    }
  }

  lemma BudgetAtFirst(size: nat, threads: nat)
    ensures Budget(size, State(0, seq(threads, _ => Ready), [])) == 2 * size + threads
  {
    LeftAtFirst(threads);
  }

  /** No run makes more than two steps for each unit and one for each worker.  */
  lemma {:induction false} RunSpends(size: nat, threads: nat, states: seq<State>, moves: seq<nat>, i: nat)
    requires IsRun(size, threads, states, moves) && i < |states|
    ensures i + Budget(size, states[i]) <= 2 * size + threads
  {
    hide Step, Budget;
    if i == 0 {
      BudgetAtFirst(size, threads);
    } else {
      RunSpends(size, threads, states, moves, i - 1);
      assert After(states, i - 1) == states[i];
      StepSpends(size, states[i - 1], states[i], moves[i - 1]);
    }
  }

  /** And a run that cannot go on has every worker back.  */
  lemma StuckIsBack(size: nat, s: State)
    requires forall w, t :: !Step(size, s, t, w)
    ensures forall w :: 0 <= w < |s.workers| ==> s.workers[w].Finished? || s.workers[w].Failed?
  {
    forall w | 0 <= w < |s.workers| ensures s.workers[w].Finished? || s.workers[w].Failed? {
      if s.workers[w].Ready? {
        var t := State(s.next + 1, s.workers[w := if s.next < size then Holding(s.next) else Finished], s.done);
        assert Takes(size, s, t, w);
        assert Step(size, s, t, w);
      } else if s.workers[w].Holding? {
        var t := State(s.next, s.workers[w := Ready], s.done + [s.workers[w].at]);
        assert Encodes(s, t, w);
        assert Step(size, s, t, w);
      }
    }
  }

  // ---------------------------------------------------------------------------------------------
  // Every value

  /** A unit's chunk holds the value at a position of a column.  */
  ghost predicate Covers(u: Unit, column: nat, position: nat) {
    u.0 == column && u.1 * ROW_GROUP <= position < u.1 * ROW_GROUP + ROW_GROUP
  }

  /** The `k`th unit encoded holds the value at a position of a column.  */
  ghost predicate Encoded(work: seq<Unit>, done: seq<nat>, k: nat, column: nat, position: nat) {
    k < |done| && done[k] < |work| && Covers(work[done[k]], column, position)
  }

  /** Every number up to the size of the work is in `done` exactly once.  */
  ghost predicate Once(size: nat, done: seq<nat>) {
    forall n: nat :: multiset(done)[n] == if n < size then 1 else 0
  }

  lemma ChunkOf(u: Unit, column: nat, position: nat)
    ensures Covers(u, column, position) <==> u == (column, position / ROW_GROUP)
  {}

  /** When the pass succeeds over a work list of every chunk, each value of each column is in exactly one of
      the units encoded.  */
  lemma EachValueOnce(lengths: seq<nat>, work: seq<Unit>, threads: nat, states: seq<State>, moves: seq<nat>,
                      i: nat, column: nat, position: nat)
    requires Lists(lengths, work) && column < |lengths| && position < lengths[column]
    requires IsRun(|work|, threads, states, moves) && i < |states| && 0 < threads && Succeeds(states[i])
    ensures exists k :: Encoded(work, states[i].done, k, column, position)
    ensures forall k, l :: (Encoded(work, states[i].done, k, column, position)
                            && Encoded(work, states[i].done, l, column, position)) ==> k == l
  {
    hide IsRun, Succeeds, Lists, Encoded;
    var done: seq<nat> := states[i].done;
    forall n: nat ensures multiset(done)[n] == if n < |work| then 1 else 0 {
      OnceEach(|work|, threads, states, moves, i, n);
    }
    SomeUnit(lengths, work, done, column, position);
    forall k: nat, l: nat | Encoded(work, done, k, column, position) && Encoded(work, done, l, column, position)
      ensures k == l
    {
      OneUnit(lengths, work, done, column, position, k, l);
    }
  }

  lemma SomeUnit(lengths: seq<nat>, work: seq<Unit>, done: seq<nat>, column: nat, position: nat)
    requires Lists(lengths, work) && column < |lengths| && position < lengths[column] && Once(|work|, done)
    ensures exists k :: Encoded(work, done, k, column, position)
  {
    var unit := (column, position / ROW_GROUP);
    assert IsUnit(lengths, unit);
    assert unit in multiset(work);
    var n :| 0 <= n < |work| && work[n] == unit;
    assert n in multiset(done);
    var k :| 0 <= k < |done| && done[k] == n;
    ChunkOf(work[done[k]], column, position);
    assert Encoded(work, done, k, column, position);
  }

  lemma OneUnit(lengths: seq<nat>, work: seq<Unit>, done: seq<nat>, column: nat, position: nat, k: nat, l: nat)
    requires Lists(lengths, work) && Once(|work|, done)
    requires Encoded(work, done, k, column, position) && Encoded(work, done, l, column, position)
    ensures k == l
  {
    ChunkOf(work[done[k]], column, position);
    ChunkOf(work[done[l]], column, position);
    if done[k] != done[l] {
      Twice(work, done[k], done[l]);
    } else if k != l {
      Twice(done, k, l);
    }
  }

  /** A repeat shows in the count.  */
  lemma Twice<T>(s: seq<T>, i: nat, j: nat)
    requires i < |s| && j < |s| && i != j && s[i] == s[j]
    ensures multiset(s)[s[i]] >= 2
  {
    var a, b := if i < j then i else j, if i < j then j else i;
    assert s == s[..a] + [s[a]] + s[a + 1..b] + [s[b]] + s[b + 1..];
  }
}
