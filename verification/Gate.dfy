/** What the gate has to run: the crates a change can reach, in dependency order, and the layer rule that
    makes that order exist.  */
module Gate {
  import opened Ordering
  import opened Sets

  /** What each member's manifest depends on.  A member whose manifest cannot be read is missing.  */
  type Manifests = map<string, seq<string>>

  ghost predicate DependsOn(deps: Manifests, a: string, b: string) {
    a in deps && b in deps[a]
  }

  /** A chain of dependencies.  */
  ghost predicate Chain(deps: Manifests, path: seq<string>) {
    path != [] && (|path| > 1 ==> DependsOn(deps, path[0], path[1]) && Chain(deps, path[1..]))
  }

  /** `a` is `b` or depends on it, however far down.  */
  ghost predicate Reaches(deps: Manifests, a: string, b: string) {
    exists path :: Chain(deps, path) && path[0] == a && path[|path| - 1] == b
  }

  lemma ReachesItself(deps: Manifests, a: string)
    ensures Reaches(deps, a, a)
  {
    assert Chain(deps, [a]);
    assert [a][0] == a;
  }

  lemma ReachesThrough(deps: Manifests, above: string, a: string, b: string)
    requires DependsOn(deps, above, a) && Reaches(deps, a, b)
    ensures Reaches(deps, above, b)
  {
    var path :| Chain(deps, path) && path[0] == a && path[|path| - 1] == b;
    var longer := [above] + path;
    assert longer[1..] == path;
    assert Chain(deps, longer) && longer[|longer| - 1] == b;
  }

  // ---------------------------------------------------------------------------------------------
  // The closure

  /** Who depends on what: the manifests turned round.  */
  ghost predicate TurnsRound(deps: Manifests, dependents: Manifests) {
    forall a, b :: DependsOn(dependents, b, a) <==> DependsOn(deps, a, b)
  }

  method TurnRound(deps: Manifests) returns (dependents: Manifests)
    ensures TurnsRound(deps, dependents)
  {
    dependents := map[];
    var left := deps.Keys;
    while left != {}
      invariant left <= deps.Keys
      invariant forall a, b :: DependsOn(dependents, b, a) <==> DependsOn(deps, a, b) && a !in left
      decreases |left|
    {
      var name :| name in left;
      for i := 0 to |deps[name]|
        invariant forall a, b :: DependsOn(dependents, b, a)
                    <==> (DependsOn(deps, a, b) && a !in left) || (a == name && b in deps[name][..i])
      {
        var dep := deps[name][i];
        assert deps[name][..i + 1] == deps[name][..i] + [dep];
        dependents := dependents[dep := (if dep in dependents then dependents[dep] else []) + [name]];
      }
      assert deps[name][..|deps[name]|] == deps[name];
      left := left - {name};
    }
  }

  /** What the worklist keeps: everything reached leads to a seed, everything queued is reached, and
      whatever is reached and not queued has all its dependents reached.  */
  ghost predicate Explored(deps: Manifests, seeds: set<string>, reached: set<string>, queue: seq<string>) {
    && seeds <= reached
    && (forall a :: a in queue ==> a in reached)
    && (forall a :: a in reached ==> LeadsTo(deps, a, seeds))
    && (forall a, b :: DependsOn(deps, a, b) && b in reached && b !in queue ==> a in reached)
  }

  ghost predicate LeadsTo(deps: Manifests, a: string, seeds: set<string>) {
    exists seed :: seed in seeds && Reaches(deps, a, seed)
  }

  /** A closed set holds everything a chain into it starts from.  */
  lemma {:induction false} ClosedUp(deps: Manifests, reached: set<string>, path: seq<string>)
    requires forall a, b :: DependsOn(deps, a, b) && b in reached ==> a in reached
    requires Chain(deps, path) && path[|path| - 1] in reached
    ensures path[0] in reached
  {
    if |path| > 1 {
      ClosedUp(deps, reached, path[1..]);
    }
  }

  /** Reaching one dependent of the crate in hand, and queueing it.  */
  lemma ReachOne(deps: Manifests, seeds: set<string>, reached: set<string>, queue: seq<string>, name: string, above: string)
    requires Explored(deps, seeds, reached, queue + [name]) && DependsOn(deps, above, name)
    ensures Explored(deps, seeds, reached + {above}, queue + [above] + [name])
  {
    hide Reaches;
    assert name in queue + [name];
    var seed :| seed in seeds && Reaches(deps, name, seed);
    ReachesThrough(deps, above, name, seed);
    assert forall a :: a in queue + [above] + [name] <==> a in queue + [name] || a == above;
  }

  /** With all its dependents reached, the crate in hand is done.  */
  lemma ReachDone(deps: Manifests, seeds: set<string>, reached: set<string>, queue: seq<string>, name: string)
    requires Explored(deps, seeds, reached, queue + [name])
    requires forall a :: DependsOn(deps, a, name) ==> a in reached
    ensures Explored(deps, seeds, reached, queue)
  {
    hide LeadsTo;
    assert forall a :: a in queue + [name] <==> a in queue || a == name;
  }

  /** With nothing queued, exactly what leads to a seed is reached.  */
  lemma ReachAll(deps: Manifests, seeds: set<string>, reached: set<string>)
    requires Explored(deps, seeds, reached, [])
    ensures forall a :: a in reached <==> LeadsTo(deps, a, seeds)
  {
    forall a | LeadsTo(deps, a, seeds) ensures a in reached {
      var seed :| seed in seeds && Reaches(deps, a, seed);
      var path :| Chain(deps, path) && path[0] == a && path[|path| - 1] == seed;
      ClosedUp(deps, reached, path);
    }
  }

  lemma ReachFirst(deps: Manifests, seeds: set<string>, queue: seq<string>)
    requires forall x :: x in queue <==> x in seeds
    ensures Explored(deps, seeds, seeds, queue)
  {
    hide Reaches;
    forall a | a in seeds ensures LeadsTo(deps, a, seeds) {
      ReachesItself(deps, a);
    }
  }

  method Start(ghost deps: Manifests, seeds: set<string>) returns (queue: seq<string>)
    ensures Explored(deps, seeds, seeds, queue)
  {
    queue := Sorted(seeds);
    ReachFirst(deps, seeds, queue);
  }

  /** Every crate that is a seed or depends on one, and no other, whether or not the graph has cycles.  */
  method Closure(deps: Manifests, seeds: set<string>) returns (reached: set<string>)
    ensures forall a :: a in reached <==> LeadsTo(deps, a, seeds)
  {
    hide Explored, LeadsTo, DependsOn, TurnsRound, Above;
    var dependents := TurnRound(deps);
    reached := seeds;
    var queue := Start(deps, seeds);
    ghost var members := seeds + deps.Keys;
    while queue != []
      invariant reached <= members && Explored(deps, seeds, reached, queue)
      decreases |members - reached|, |queue|
    {
      var name := queue[|queue| - 1];
      ghost var start := reached;
      assert queue == queue[..|queue| - 1] + [name];
      queue := queue[..|queue| - 1];
      AboveDepends(deps, dependents, name);
      reached, queue := AddAll(deps, seeds, members, Above(dependents, name), name, reached, queue);
      Fewer(members, start, reached);
    }
    ReachAll(deps, seeds, reached);
  }

  function Above(dependents: Manifests, name: string): seq<string> {
    if name in dependents then dependents[name] else []
  }

  lemma AboveDepends(deps: Manifests, dependents: Manifests, name: string)
    requires TurnsRound(deps, dependents)
    ensures forall a :: a in Above(dependents, name) <==> DependsOn(deps, a, name)
  {
    assert forall a :: a in Above(dependents, name) <==> DependsOn(dependents, name, a);
  }

  lemma Fewer(members: set<string>, reached: set<string>, more: set<string>)
    requires reached <= more <= members
    ensures more == reached || |members - more| < |members - reached|
  {
    SubsetSmaller(members - more, members - reached);
    assert members - more == members - reached ==> more == reached;
  }

  /** Reaches and queues the dependents of one crate that are not yet reached.  */
  method AddAll(ghost deps: Manifests, ghost seeds: set<string>, ghost members: set<string>,
                above: seq<string>, ghost name: string, reached: set<string>, queue: seq<string>)
    returns (reached': set<string>, queue': seq<string>)
    requires forall a :: a in above <==> DependsOn(deps, a, name)
    requires deps.Keys <= members && reached <= members
    requires Explored(deps, seeds, reached, queue + [name])
    ensures reached <= reached' <= members && Explored(deps, seeds, reached', queue')
    ensures reached' == reached ==> queue' == queue
  {
    hide Explored;
    reached', queue' := reached, queue;
    for i := 0 to |above|
      invariant reached <= reached' <= members && (reached' == reached ==> queue' == queue)
      invariant Explored(deps, seeds, reached', queue' + [name])
      invariant forall j :: 0 <= j < i ==> above[j] in reached'
    {
      if above[i] !in reached' {
        assert above[i] in above;
        ReachOne(deps, seeds, reached', queue', name, above[i]);
        reached' := reached' + {above[i]};
        queue' := queue' + [above[i]];
      }
    }
    ReachDone(deps, seeds, reached', queue', name);
  }

  // ---------------------------------------------------------------------------------------------
  // The layer rule

  const UNRANKED: nat := 0xffff_ffff

  /** A crate has a rank, and so does everything it depends on, strictly lower.  */
  ghost predicate Layered(deps: Manifests, ranks: map<string, nat>, name: string) {
    && name in ranks
    && forall b :: DependsOn(deps, name, b) ==> b in ranks && ranks[b] < ranks[name]
  }

  /** Every crate has a manifest and is layered, and nothing but a crate is ranked.  */
  ghost predicate Passes(crates: seq<string>, deps: Manifests, ranks: map<string, nat>) {
    && (forall name :: name in crates ==> name in deps && Layered(deps, ranks, name))
    && (forall name :: name in ranks ==> name in crates)
  }

  datatype Checked = Unreadable(name: string) | Problems(count: nat)

  lemma Unlayered(deps: Manifests, ranks: map<string, nat>, name: string)
    requires name !in ranks
    ensures !Layered(deps, ranks, name)
  {}

  /** How many dependencies of a crate are not below it.  */
  method Upward(deps: Manifests, ranks: map<string, nat>, name: string) returns (count: nat)
    requires name in deps && name in ranks
    ensures count == 0 <==> Layered(deps, ranks, name)
  {
    count := 0;
    for k := 0 to |deps[name]|
      invariant count == 0 <==>
                  forall l :: 0 <= l < k ==> deps[name][l] in ranks && ranks[deps[name][l]] < ranks[name]
    {
      var dep := deps[name][k];
      if dep !in ranks || ranks[dep] >= ranks[name] {
        count := count + 1;
      }
    }
  }

  /** How many ranked names are no crate.  */
  method Strays(crates: seq<string>, ranks: map<string, nat>) returns (count: nat)
    ensures count == 0 <==> forall name :: name in ranks ==> name in crates
  {
    count := 0;
    var left := ranks.Keys;
    while left != {}
      invariant left <= ranks.Keys
      invariant count == 0 <==> forall name :: name in ranks && name !in left ==> name in crates
      decreases |left|
    {
      var name :| name in left;
      if name !in crates {
        count := count + 1;
      }
      left := left - {name};
    }
  }

  /** The layer check counts problems, and finds none exactly when they all pass.  It gives up when a ranked crate has no manifest it can read.  */
  method Check(crates: seq<string>, deps: Manifests, ranks: map<string, nat>) returns (r: Checked)
    ensures r.Unreadable? <==> exists name :: name in crates && name in ranks && name !in deps
    ensures r == Problems(0) <==> Passes(crates, deps, ranks)
  {
    hide Layered;
    var problems := 0;
    for i := 0 to |crates|
      invariant forall j :: 0 <= j < i ==> crates[j] in ranks ==> crates[j] in deps
      invariant problems == 0 <==> forall j :: 0 <= j < i ==> crates[j] in deps && Layered(deps, ranks, crates[j])
    {
      var name := crates[i];
      if name !in ranks {
        Unlayered(deps, ranks, name);
        problems := problems + 1;
      } else if name !in deps {
        return Unreadable(name);
      } else {
        var more := Upward(deps, ranks, name);
        problems := problems + more;
      }
    }
    var strays := Strays(crates, ranks);
    r := Problems(problems + strays);
  }

  // ---------------------------------------------------------------------------------------------
  // The order of packages

  function RankOf(ranks: map<string, nat>, name: string): nat {
    if name in ranks then ranks[name] else UNRANKED
  }

  /** By rank, then by name.  */
  predicate Earlier(ranks: map<string, nat>, a: string, b: string) {
    RankOf(ranks, a) < RankOf(ranks, b) || (RankOf(ranks, a) == RankOf(ranks, b) && Before(a, b))
  }

  function Order(ranks: map<string, nat>): (string, string) -> bool {
    (a, b) => Earlier(ranks, a, b)
  }

  lemma EarlierOrders(ranks: map<string, nat>)
    ensures Orders(Order(ranks))
  {
    BeforeOrders();
  }

  /** The affected crates in the order they are named on the command line.  */
  method Packages(ranks: map<string, nat>, crates: set<string>) returns (named: seq<string>)
    ensures InOrder(Order(ranks), named) && |named| == |crates| && forall x :: x in named <==> x in crates
  {
    EarlierOrders(ranks);
    named := [];
    var left := crates;
    while left != {}
      invariant left <= crates && |named| + |left| == |crates|
      invariant InOrder(Order(ranks), named) && forall x :: x in named <==> x in crates - left
      decreases |left|
    {
      var name :| name in left;
      named := Insert(Order(ranks), named, name);
      left := left - {name};
    }
  }

  /** The one member that is no layer and has no rank.  */
  const RUNNER: string := "xtask"

  /** Dependencies are the repository's own crates, which its name sorts after.  */
  predicate Ours(name: string) {
    name == "rudb" || (|name| >= 5 && name[..5] == "rudb-")
  }

  lemma OursFirst(name: string)
    requires Ours(name)
    ensures Before(name, RUNNER)
  {
    assert name[0] == 'r' by {
      if |name| >= 5 {
        assert name[..5][0] == name[0];
      }
    }
  }

  /** The layer rule holds of every member but the runner, and members depend on crates only.  */
  ghost predicate LayersHold(deps: Manifests, ranks: map<string, nat>) {
    && (forall a, b :: DependsOn(deps, a, b) ==> Ours(b))
    && (forall a :: a in deps && a != RUNNER ==> Layered(deps, ranks, a))
    && (forall a :: a in ranks ==> a != RUNNER && ranks[a] <= UNRANKED)
  }

  lemma RunnerIsNotOurs()
    ensures !Ours(RUNNER)
  {
    assert RUNNER[..5] == RUNNER && RUNNER[0] == 'x';
  }

  /** Along a chain of crates the rank falls at every step.  */
  lemma {:induction false} RankFalls(deps: Manifests, ranks: map<string, nat>, path: seq<string>)
    requires LayersHold(deps, ranks) && Chain(deps, path) && |path| > 1 && path[0] != RUNNER
    ensures path[0] in ranks && path[|path| - 1] in ranks
    ensures ranks[path[|path| - 1]] < ranks[path[0]]
  {
    RunnerIsNotOurs();
    assert DependsOn(deps, path[0], path[1]);
    if |path| > 2 {
      RankFalls(deps, ranks, path[1..]);
    }
  }

  lemma {:induction false} ChainEndsInOurs(deps: Manifests, path: seq<string>)
    requires Chain(deps, path) && |path| > 1 && forall a, b :: DependsOn(deps, a, b) ==> Ours(b)
    ensures Ours(path[|path| - 1])
  {
    assert DependsOn(deps, path[0], path[1]);
    if |path| > 2 {
      ChainEndsInOurs(deps, path[1..]);
    }
  }

  /** The layer rule leaves no cycle, through the runner or otherwise.  */
  lemma NoCycle(deps: Manifests, ranks: map<string, nat>, path: seq<string>)
    requires LayersHold(deps, ranks) && Chain(deps, path) && |path| > 1
    ensures path[0] != path[|path| - 1]
  {
    if path[0] == RUNNER {
      RunnerIsNotOurs();
      ChainEndsInOurs(deps, path);
    } else {
      RankFalls(deps, ranks, path);
    }
  }

  /** When the layer rule holds, each affected crate is named after the ones it depends on.  */
  lemma DependenciesFirst(deps: Manifests, ranks: map<string, nat>, named: seq<string>, i: nat, j: nat)
    requires LayersHold(deps, ranks)
    requires InOrder(Order(ranks), named) && i < |named| && j < |named| && DependsOn(deps, named[i], named[j])
    ensures j < i
  {
    var a, b := named[i], named[j];
    if a == RUNNER {
      OursFirst(b);
      assert RankOf(ranks, b) <= RankOf(ranks, a);
    }
    assert Earlier(ranks, b, a);
    EarlierOrders(ranks);
    assert i < j ==> Order(ranks)(a, b);
  }

  /** The layer check over the crates is enough for the whole workspace, the runner included.  */
  lemma PassingHolds(crates: seq<string>, deps: Manifests, ranks: map<string, nat>)
    requires Passes(crates, deps, ranks) && RUNNER !in crates && forall a :: a in deps ==> a in crates || a == RUNNER
    requires (forall a, b :: DependsOn(deps, a, b) ==> Ours(b)) && forall a :: a in ranks ==> ranks[a] <= UNRANKED
    ensures LayersHold(deps, ranks)
  {
    hide Layered;
  }

  /** Checks the layers, and names what a change to the seeds can affect.  When the check finds nothing,
      the dependencies have no cycle and everything affected is named once, after all it depends on.  */
  method Plan(crates: seq<string>, deps: Manifests, ranks: map<string, nat>, seeds: set<string>)
    returns (checked: Checked, named: seq<string>)
    requires RUNNER !in crates && forall a :: a in deps ==> a in crates || a == RUNNER
    requires (forall a, b :: DependsOn(deps, a, b) ==> Ours(b)) && forall a :: a in ranks ==> ranks[a] <= UNRANKED
    ensures forall a :: a in named <==> LeadsTo(deps, a, seeds)
    ensures forall i, j :: 0 <= i < j < |named| ==> named[i] != named[j]
    ensures checked == Problems(0) ==> forall path :: Chain(deps, path) && |path| > 1 ==> path[0] != path[|path| - 1]
    ensures checked == Problems(0) ==>
              forall i, j :: 0 <= i < |named| && 0 <= j < |named| && DependsOn(deps, named[i], named[j]) ==> j < i
  {
    hide Passes, LeadsTo, LayersHold, Chain;
    checked := Check(crates, deps, ranks);
    var reached := Closure(deps, seeds);
    named := Packages(ranks, reached);
    NamedOnce(ranks, named);
    if checked == Problems(0) {
      PassingHolds(crates, deps, ranks);
      forall path | Chain(deps, path) && |path| > 1 ensures path[0] != path[|path| - 1] {
        NoCycle(deps, ranks, path);
      }
      forall i, j | 0 <= i < |named| && 0 <= j < |named| && DependsOn(deps, named[i], named[j]) ensures j < i {
        DependenciesFirst(deps, ranks, named, i, j);
      }
    }
  }

  lemma NamedOnce(ranks: map<string, nat>, named: seq<string>)
    requires InOrder(Order(ranks), named)
    ensures forall i, j :: 0 <= i < j < |named| ==> named[i] != named[j]
  {
    EarlierOrders(ranks);
    forall i, j | 0 <= i < j < |named| ensures named[i] != named[j] {
      assert Order(ranks)(named[i], named[j]);
    }
  }
}
