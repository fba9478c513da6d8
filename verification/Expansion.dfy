/** What becomes of template calls: when expansion ends, and when a call has nothing to expand.  */
module Expansion {
  import opened RuleTable
  import opened Syntax
  import opened Meaning
  import opened Reach
  import opened Compiler
  import opened Generate

  /** A call of `t` is replaced by its body.  */
  ghost predicate Expands(env: Env, t: string) {
    t in env.bodies && env.bodies[t].parameter.Some? && t in env.resolved && env.resolved[t].Body?
  }

  /** A rule that survived and has a body.  */
  ghost predicate Survives(env: Env, name: string) {
    name in env.reached && name in env.resolved && env.resolved[name].Body?
  }

  // ---------------------------------------------------------------------------------------------
  // The limit

  /** Only running out of depth is a matter of depth: every other outcome stays what it is.  */
  lemma {:induction false} LimitKeeps(env: Env, e: Expr, bound: map<string, Form>, low: nat, high: nat)
    requires low <= high && Expand(env, e, bound, low) != Err(Overflow)
    ensures Expand(env, e, bound, high) == Expand(env, e, bound, low)
    decreases low, e, 1
  {
    match e
    case Call(name, argument) =>
      if name in env.bodies && env.bodies[name].parameter.Some? {
        LimitKeeps(env, argument, bound, low, high);
        if Expands(env, name) && Expand(env, argument, bound, low).Ok? {
          var inner := map[env.bodies[name].parameter.value := Expand(env, argument, bound, low).value];
          LimitKeeps(env, env.resolved[name].body, inner, low - 1, high - 1);
        }
      }
    case Sequence(items) => LimitKeepsAll(env, items, bound, low, high);
    case Choice(items) => LimitKeepsAll(env, items, bound, low, high);
    case Optional(inner) => LimitKeeps(env, inner, bound, low, high);
    case Repeat(inner) => LimitKeeps(env, inner, bound, low, high);
    case _ =>
  }

  lemma {:induction false} LimitKeepsAll(env: Env, items: seq<Expr>, bound: map<string, Form>, low: nat, high: nat)
    requires low <= high && ExpandAll(env, items, bound, low) != Err(Overflow)
    ensures ExpandAll(env, items, bound, high) == ExpandAll(env, items, bound, low)
    decreases low, items, 0
  {
    if items != [] {
      LimitKeeps(env, items[0], bound, low, high);
      if Expand(env, items[0], bound, low).Ok? {
        LimitKeepsAll(env, items[1..], bound, low, high);
      }
    }
  }

  /** The body of `t` expands within `limit` for something its parameter may be bound to.  */
  ghost predicate BodyExpands(env: Env, t: string, limit: nat)
    requires Expands(env, t)
  {
    exists form: Form :: Expand(env, env.resolved[t].body, map[env.bodies[t].parameter.value := form], limit).Ok?
  }

  lemma BodyKeepsExpanding(env: Env, t: string, low: nat, high: nat)
    requires Expands(env, t) && BodyExpands(env, t, low) && low <= high
    ensures BodyExpands(env, t, high)
  {
    var form: Form :| Expand(env, env.resolved[t].body, map[env.bodies[t].parameter.value := form], low).Ok?;
    LimitKeeps(env, env.resolved[t].body, map[env.bodies[t].parameter.value := form], low, high);
  }

  lemma {:induction false} ItemExpands(env: Env, items: seq<Expr>, bound: map<string, Form>, limit: nat, i: nat)
    requires i < |items| && ExpandAll(env, items, bound, limit).Ok?
    ensures Expand(env, items[i], bound, limit).Ok?
  {
    if i > 0 {
      ItemExpands(env, items[1..], bound, limit, i - 1);
    }
  }

  /** Whatever an expanded body calls was expanded in its turn, one level down.  */
  lemma {:induction false} CalledExpands(env: Env, e: Expr, bound: map<string, Form>, limit: nat, t: string)
    requires Expand(env, e, bound, limit).Ok? && t in Calls(e)
    ensures limit > 0 && Expands(env, t) && BodyExpands(env, t, limit - 1)
    decreases e
  {
    match e
    case Call(name, argument) =>
      if t != name {
        CalledExpands(env, argument, bound, limit, t);
      } else {
        var form := Expand(env, argument, bound, limit).value;
        assert Expand(env, env.resolved[t].body, map[env.bodies[t].parameter.value := form], limit - 1).Ok?;
      }
    case Sequence(items) =>
      var i :| 0 <= i < |items| && t in Calls(items[i]);
      ItemExpands(env, items, bound, limit, i);
      CalledExpands(env, items[i], bound, limit, t);
    case Choice(items) =>
      var i :| 0 <= i < |items| && t in Calls(items[i]);
      ItemExpands(env, items, bound, limit, i);
      CalledExpands(env, items[i], bound, limit, t);
    case Optional(inner) => CalledExpands(env, inner, bound, limit, t);
    case Repeat(inner) => CalledExpands(env, inner, bound, limit, t);
    case _ =>
  }

  // ---------------------------------------------------------------------------------------------
  // When expansion ends

  /** Templates ranked so that each calls only lower ones.  Nothing is asked of templates that have
      no rank.  */
  ghost predicate Ranked(env: Env, rank: map<string, nat>) {
    forall t, u :: t in rank && Expands(env, t) && u in Calls(env.resolved[t].body) && Expands(env, u) ==>
      u in rank && rank[u] < rank[t]
  }

  /** Ranks for what the surviving rules call, directly or through templates.  */
  ghost predicate RanksSurvivors(env: Env, rank: map<string, nat>) {
    && Ranked(env, rank)
    && forall n, t :: Survives(env, n) && t in Calls(env.resolved[n].body) && Expands(env, t) ==> t in rank
  }

  ghost predicate RankedBelow(env: Env, rank: map<string, nat>, e: Expr, limit: nat) {
    forall t :: t in Calls(e) && Expands(env, t) ==> t in rank && rank[t] < limit
  }

  /** Calls that rank below the limit never overflow it.  */
  lemma {:induction false} RankedNeverOverflows(env: Env, rank: map<string, nat>, e: Expr,
                                                bound: map<string, Form>, limit: nat)
    requires Ranked(env, rank) && RankedBelow(env, rank, e, limit)
    ensures Expand(env, e, bound, limit) != Err(Overflow)
    decreases limit, e, 1
  {
    match e
    case Call(name, argument) =>
      RankedNeverOverflows(env, rank, argument, bound, limit);
      if Expands(env, name) && Expand(env, argument, bound, limit).Ok? {
        var inner := map[env.bodies[name].parameter.value := Expand(env, argument, bound, limit).value];
        RankedNeverOverflows(env, rank, env.resolved[name].body, inner, limit - 1);
      }
    case Sequence(items) => RankedNeverOverflowsAll(env, rank, items, bound, limit);
    case Choice(items) => RankedNeverOverflowsAll(env, rank, items, bound, limit);
    case Optional(inner) => RankedNeverOverflows(env, rank, inner, bound, limit);
    case Repeat(inner) => RankedNeverOverflows(env, rank, inner, bound, limit);
    case _ =>
  }

  lemma {:induction false} RankedNeverOverflowsAll(env: Env, rank: map<string, nat>, items: seq<Expr>,
                                                   bound: map<string, Form>, limit: nat)
    requires Ranked(env, rank) && forall i :: 0 <= i < |items| ==> RankedBelow(env, rank, items[i], limit)
    ensures ExpandAll(env, items, bound, limit) != Err(Overflow)
    decreases limit, items, 0
  {
    if items != [] {
      RankedNeverOverflows(env, rank, items[0], bound, limit);
      RankedNeverOverflowsAll(env, rank, items[1..], bound, limit);
    }
  }

  /** The least depth at which the body of `t` expands.  */
  ghost function Depth(env: Env, t: string, limit: nat): (least: nat)
    requires Expands(env, t) && BodyExpands(env, t, limit)
    ensures BodyExpands(env, t, least)
    ensures forall other: nat :: BodyExpands(env, t, other) ==> least <= other
  {
    if exists lower: nat :: lower < limit && BodyExpands(env, t, lower) then
      var lower: nat :| lower < limit && BodyExpands(env, t, lower);
      Depth(env, t, lower)
    else limit
  }

  /** The depth of every template that expands within `limit`.  */
  ghost function Depths(env: Env, limit: nat): (rank: map<string, nat>) {
    map t | t in env.bodies && Expands(env, t) && BodyExpands(env, t, limit) :: Depth(env, t, limit)
  }

  ghost predicate AllExpand(env: Env, limit: nat)
    requires env.reached <= env.resolved.Keys
  {
    forall n :: n in env.reached ==> RuleForm(env, n, limit).Ok?
  }

  /** Where every surviving rule expands, depth is a rank.  */
  lemma DepthsRank(env: Env, limit: nat)
    requires env.reached <= env.resolved.Keys && AllExpand(env, limit)
    ensures RanksSurvivors(env, Depths(env, limit))
  {
    hide Expand, Calls;
    var rank := Depths(env, limit);
    forall t, u | t in rank && Expands(env, t) && u in Calls(env.resolved[t].body) && Expands(env, u)
      ensures u in rank && rank[u] < rank[t]
    {
      var form: Form :|
        Expand(env, env.resolved[t].body, map[env.bodies[t].parameter.value := form], rank[t]).Ok?;
      CalledExpands(env, env.resolved[t].body, map[env.bodies[t].parameter.value := form], rank[t], u);
      BodyKeepsExpanding(env, u, rank[t] - 1, limit);
    }
    forall n, t | Survives(env, n) && t in Calls(env.resolved[n].body) && Expands(env, t) ensures t in rank {
      assert RuleForm(env, n, limit).Ok?;
      CalledExpands(env, env.resolved[n].body, map[], limit, t);
      BodyKeepsExpanding(env, t, limit - 1, limit);
    }
  }

  lemma {:induction false} Above(rank: map<string, nat>) returns (limit: nat)
    ensures forall t :: t in rank ==> rank[t] < limit
    decreases |rank|
  {
    limit := 0;
    if rank != map[] {
      var t :| t in rank;
      var rest := rank - {t};
      assert rest.Keys == rank.Keys - {t};
      var below := Above(rest);
      limit := if below <= rank[t] then rank[t] + 1 else below;
      forall u | u in rank ensures rank[u] < limit {
        if u != t {
          assert u in rest;
        }
      }
    }
  }

  /** With ranks there is a depth from which on no surviving rule overflows.  */
  lemma RanksAreEnough(env: Env, rank: map<string, nat>) returns (enough: nat)
    requires env.reached <= env.resolved.Keys && RanksSurvivors(env, rank)
    ensures forall n, limit: nat :: n in env.reached && enough <= limit ==> RuleForm(env, n, limit) != Err(Overflow)
  {
    hide Expand, Calls;
    enough := Above(rank);
    forall n, limit: nat | n in env.reached && enough <= limit ensures RuleForm(env, n, limit) != Err(Overflow) {
      if env.resolved[n].Body? {
        RankedNeverOverflows(env, rank, env.resolved[n].body, map[], limit);
      }
    }
  }

  /** When nothing else is wrong, some depth is enough for every surviving rule exactly when the
      templates they call can be ranked.  */
  lemma EndsExactlyWhenRanked(env: Env)
    requires env.reached <= env.resolved.Keys
    requires forall n, limit: nat :: n in env.reached ==>
               RuleForm(env, n, limit).Ok? || RuleForm(env, n, limit) == Err(Overflow)
    ensures (exists limit: nat :: AllExpand(env, limit)) <==> (exists rank :: RanksSurvivors(env, rank))
  {
    hide RuleForm, Ranked;
    if limit: nat :| AllExpand(env, limit) {
      DepthsRank(env, limit);
    }
    if rank :| RanksSurvivors(env, rank) {
      var enough := RanksAreEnough(env, rank);
      assert AllExpand(env, enough);
    }
  }

  // ---------------------------------------------------------------------------------------------
  // What the walk rules out, and what it does not

  /** Every template uses its parameter, and no parameter is also the name of a rule.  */
  ghost predicate ParametersUsed(env: Env) {
    forall x :: x in env.bodies && env.bodies[x].parameter.Some? ==>
      && env.bodies[x].parameter.value !in env.resolved
      && env.bodies[x].parameter.value in References(env.bodies[x].body)
  }

  /** Then the walk refuses a template that calls a template: nothing that a surviving rule's
      templates call is expanded.  */
  lemma NestedNeverExpands(env: Env, name: string, t: string, u: string)
    requires EnvReached(env) && ParametersUsed(env) && Survives(env, name)
    requires t in Calls(env.resolved[name].body) && Expands(env, t) && u in Calls(env.resolved[t].body)
    ensures !Expands(env, u)
  {
    assert Sound(env.bodies, env.resolved, name);
    assert u in Inner(env.bodies, t);
    assert u in Successors(env.bodies, env.resolved, name);
    assert Sound(env.bodies, env.resolved, u);
    assert env.resolved[u].Body? ==>
        References(env.resolved[u].body) <= Successors(env.bodies, env.resolved, u);
  }

  /** So one level of calls is enough for every surviving rule.  */
  lemma WalkRefusesNestedTemplates(env: Env, name: string, limit: nat)
    requires EnvReached(env) && ParametersUsed(env)
    requires name in env.reached && name in env.resolved && limit >= 1
    ensures RuleForm(env, name, limit) != Err(Overflow)
  {
    if env.resolved[name].Body? {
      var body := env.resolved[name].body;
      var rank: map<string, nat> := map t | t in Calls(body) :: 0;
      forall t, u | t in rank && Expands(env, t) && u in Calls(env.resolved[t].body)
        ensures !Expands(env, u)
      {
        NestedNeverExpands(env, name, t, u);
      }
      RankedNeverOverflows(env, rank, body, map[], limit);
    }
  }

  /** Resolution as a map.  */
  ghost function ResolvedMap(bodies: map<string, Rule>): (resolved: map<string, Resolved>)
    ensures Resolves(bodies, map[], CLASS_RULES, resolved)
  {
    map n | n in bodies.Keys + {END_RULE} + (set c | c in CLASS_RULES) ::
      Resolution(bodies, map[], CLASS_RULES, n).value
  }

  /** A rule named apart from the end of input and the keyword classes keeps its body.  */
  lemma KeepsBody(x: Fixed, parsed: seq<Rule>, overriding: map<string, Node>, i: nat)
    requires NamesFromFiles(x, parsed, [], overriding) && i < |parsed|
    requires parsed[i].name != END_RULE && parsed[i].name !in CLASS_RULES
    ensures parsed[i].name in x.env.bodies && x.env.bodies[parsed[i].name] == parsed[i]
    ensures parsed[i].name in x.env.resolved && x.env.resolved[parsed[i].name] == Body(parsed[i].body)
  {
    var name := parsed[i].name;
    assert LastOverride([], name) == None;
    assert Resolution(x.env.bodies, overriding, CLASS_RULES, name) == Some(Body(parsed[i].body));
  }

  const LESS: Expr := Literal("<")

  lemma LessIsSymbol(env: Env)
    ensures ExpandLiteral(env, "<") == Ok(Form.Symbol("<"))
  {
    assert !IsLetter("<"[0]);
  }

  /** A template that calls itself and ignores its parameter.  */
  const SELF_CALL: seq<Rule> := [
    Rule.Rule(ROOT, None, Call("T", LESS)),
    Rule.Rule(STATEMENT_ROOT, None, LESS),
    Rule.Rule("T", Some("D"), Call("T", LESS))]

  lemma {:induction false} SelfCallNeverExpands(env: Env, bound: map<string, Form>, limit: nat)
    requires "T" in env.bodies && env.bodies["T"] == SELF_CALL[2]
    requires "T" in env.resolved && env.resolved["T"] == Body(Call("T", LESS))
    ensures Expand(env, Call("T", LESS), bound, limit) == Err(Overflow)
    decreases limit
  {
    LessIsSymbol(env);
    if limit > 0 {
      SelfCallNeverExpands(env, map["D" := Form.Symbol("<")], limit - 1);
    }
  }

  /** What three rules of different names leave to compile.  */
  ghost function ThreeRules(parsed: seq<Rule>, reached: set<string>): (x: Fixed)
    requires |parsed| == 3
  {
    var bodies := map[parsed[0].name := parsed[0], parsed[1].name := parsed[1], parsed[2].name := parsed[2]];
    Fixed(Env(bodies, ResolvedMap(bodies), reached, {}), map[], [], map[])
  }

  lemma NotBuiltIn(name: string)
    requires name == ROOT || name == STATEMENT_ROOT || |name| == 1
    ensures name != END_RULE && name !in CLASS_RULES
  {
    assert ROOT[0] == 'P' && STATEMENT_ROOT[1] == 'o';
  }

  lemma ThreeFromFiles(parsed: seq<Rule>, reached: set<string>)
    requires |parsed| == 3 && DistinctNames(parsed)
    ensures NamesFromFiles(ThreeRules(parsed, reached), parsed, [], map[])
  {}

  lemma RootsAreRules(parsed: seq<Rule>, reached: set<string>)
    requires |parsed| == 3 && DistinctNames(parsed) && parsed[0].name == ROOT && parsed[1].name == STATEMENT_ROOT
    requires |parsed[2].name| == 1
    ensures forall i :: 0 <= i < 3 ==>
              var env := ThreeRules(parsed, reached).env;
              && parsed[i].name in env.bodies && env.bodies[parsed[i].name] == parsed[i]
              && parsed[i].name in env.resolved && env.resolved[parsed[i].name] == Body(parsed[i].body)
    ensures NamesFromFiles(ThreeRules(parsed, reached), parsed, [], map[])
  {
    var x := ThreeRules(parsed, reached);
    ThreeFromFiles(parsed, reached);
    hide ThreeRules, NamesFromFiles;
    forall i | 0 <= i < 3
      ensures parsed[i].name in x.env.bodies && x.env.bodies[parsed[i].name] == parsed[i]
      ensures parsed[i].name in x.env.resolved && x.env.resolved[parsed[i].name] == Body(parsed[i].body)
    {
      NotBuiltIn(parsed[i].name);
      KeepsBody(x, parsed, map[], i);
    }
  }

  /** The walk accepts it, and no depth is enough.  */
  lemma SelfCallOverflows() returns (x: Fixed)
    ensures FromFiles(x, SELF_CALL, [], [], map[]) && ROOT in x.env.resolved
    ensures forall limit: nat :: RuleForm(x.env, ROOT, limit) == Err(Overflow)
  {
    x := ThreeRules(SELF_CALL, {ROOT, STATEMENT_ROOT, "T"});
    RootsAreRules(SELF_CALL, {ROOT, STATEMENT_ROOT, "T"});
    SelfCallReachable(x.env);
    forall limit: nat ensures RuleForm(x.env, ROOT, limit) == Err(Overflow) {
      SelfCallNeverExpands(x.env, map[], limit);
    }
  }

  lemma SelfCallReachable(env: Env)
    requires forall i :: 0 <= i < 3 ==>
              && SELF_CALL[i].name in env.bodies && env.bodies[SELF_CALL[i].name] == SELF_CALL[i]
              && SELF_CALL[i].name in env.resolved && env.resolved[SELF_CALL[i].name] == Body(SELF_CALL[i].body)
    ensures Reachable(env.bodies, env.resolved, {ROOT, STATEMENT_ROOT, "T"})
  {
    assert SELF_CALL[0].name == ROOT && SELF_CALL[1].name == STATEMENT_ROOT && SELF_CALL[2].name == "T";
    assert Inner(env.bodies, "T") == {"T"};
    assert InnerAll(env.bodies, {"T"}) == {"T"};
    assert InnerAll(env.bodies, {}) == {};
    assert Successors(env.bodies, env.resolved, ROOT) == {"T"};
    assert Successors(env.bodies, env.resolved, STATEMENT_ROOT) == {};
    assert Successors(env.bodies, env.resolved, "T") == {"T"};
  }

  // ---------------------------------------------------------------------------------------------
  // Calls of nothing

  /** A template a surviving rule calls has a body that calls an override or a keyword class that no
      rule shares its name with.  */
  ghost predicate Dangling(env: Env, name: string, t: string, u: string) {
    && Survives(env, name) && t in Calls(env.resolved[name].body) && Expands(env, t)
    && u in Calls(env.resolved[t].body) && u !in env.bodies && u in env.resolved && !env.resolved[u].Body?
  }

  ghost predicate CalledBySurvivor(env: Env, t: string) {
    exists name :: Survives(env, name) && t in Calls(env.resolved[name].body)
  }

  /** Called by a surviving rule, or by a template that one calls.  */
  ghost predicate Called(env: Env, t: string) {
    CalledBySurvivor(env, t) || (t in env.reached && t in env.bodies)
  }

  lemma CalledCalls(env: Env, t: string, u: string)
    requires EnvReached(env) && Called(env, t) && Expands(env, t) && u in Calls(env.resolved[t].body)
    requires forall name, t, u :: !Dangling(env, name, t, u)
    ensures Called(env, u)
  {
    if t in env.reached {
      assert Survives(env, t);
    } else {
      var name :| Survives(env, name) && t in Calls(env.resolved[name].body);
      assert Sound(env.bodies, env.resolved, name);
      assert u in Inner(env.bodies, t);
      assert u in Successors(env.bodies, env.resolved, name);
      assert !Dangling(env, name, t, u);
    }
  }

  lemma {:induction false} CalledIsDefined(env: Env, e: Expr, bound: map<string, Form>, limit: nat)
    requires EnvReached(env) && forall name, t, u :: !Dangling(env, name, t, u)
    requires forall t :: t in Calls(e) ==> Called(env, t)
    ensures Expand(env, e, bound, limit) != Err(NoTemplate)
    decreases limit, e, 1
  {
    hide Reachable, Dangling;
    match e
    case Call(name, argument) =>
      CalledHasBody(env, name);
      CalledIsDefined(env, argument, bound, limit);
      if Expands(env, name) && limit > 0 && Expand(env, argument, bound, limit).Ok? {
        forall u | u in Calls(env.resolved[name].body) ensures Called(env, u) {
          CalledCalls(env, name, u);
        }
        var inner := map[env.bodies[name].parameter.value := Expand(env, argument, bound, limit).value];
        CalledIsDefined(env, env.resolved[name].body, inner, limit - 1);
      }
    case Sequence(items) => CalledIsDefinedAll(env, items, bound, limit);
    case Choice(items) => CalledIsDefinedAll(env, items, bound, limit);
    case Optional(inner) => CalledIsDefined(env, inner, bound, limit);
    case Repeat(inner) => CalledIsDefined(env, inner, bound, limit);
    case _ =>
  }

  lemma {:induction false} CalledIsDefinedAll(env: Env, items: seq<Expr>, bound: map<string, Form>, limit: nat)
    requires EnvReached(env) && forall name, t, u :: !Dangling(env, name, t, u)
    requires forall i, t :: 0 <= i < |items| && t in Calls(items[i]) ==> Called(env, t)
    ensures ExpandAll(env, items, bound, limit) != Err(NoTemplate)
    decreases limit, items, 0
  {
    hide Reachable, Dangling;
    if items != [] {
      CalledIsDefined(env, items[0], bound, limit);
      CalledIsDefinedAll(env, items[1..], bound, limit);
    }
  }

  lemma CalledHasBody(env: Env, t: string)
    requires EnvReached(env) && Called(env, t)
    ensures t in env.bodies
  {
    if t !in env.reached || t !in env.bodies {
      var name :| Survives(env, name) && t in Calls(env.resolved[name].body);
      assert Sound(env.bodies, env.resolved, name);
    }
  }

  /** After the walk, a call of nothing is found only under a dangling template.  */
  lemma UndefinedIsDangling(env: Env, name: string, limit: nat)
    requires EnvReached(env) && name in env.reached && name in env.resolved
    requires RuleForm(env, name, limit) == Err(NoTemplate)
    ensures exists n, t, u :: Dangling(env, n, t, u)
  {
    hide Reachable, Dangling;
    if forall n, t, u :: !Dangling(env, n, t, u) {
      assert Survives(env, name);
      CalledIsDefined(env, env.resolved[name].body, map[], limit);
    }
  }

  /** And a rule that calls one never compiles.  */
  lemma DanglingNeverExpands(env: Env, name: string, t: string, u: string, limit: nat)
    requires Dangling(env, name, t, u)
    ensures RuleForm(env, name, limit).Err?
  {
    if RuleForm(env, name, limit).Ok? {
      CalledExpands(env, env.resolved[name].body, map[], limit, t);
      var form: Form :|
        Expand(env, env.resolved[t].body, map[env.bodies[t].parameter.value := form], limit - 1).Ok?;
      CalledExpands(env, env.resolved[t].body, map[env.bodies[t].parameter.value := form], limit - 1, u);
    }
  }

  /** When nothing else is wrong, some surviving rule calls nothing exactly when a template dangles.  */
  lemma UndefinedExactlyWhenDangling(env: Env, limit: nat)
    requires EnvReached(env) && env.reached <= env.resolved.Keys
    requires forall n :: n in env.reached ==>
               RuleForm(env, n, limit).Ok? || RuleForm(env, n, limit) == Err(NoTemplate)
    ensures (exists n :: n in env.reached && RuleForm(env, n, limit) == Err(NoTemplate)) <==>
            (exists n, t, u :: Dangling(env, n, t, u))
  {
    hide Reachable, RuleForm;
    if n :| n in env.reached && RuleForm(env, n, limit) == Err(NoTemplate) {
      UndefinedIsDangling(env, n, limit);
    }
    if n, t, u :| Dangling(env, n, t, u) {
      DanglingNeverExpands(env, n, t, u, limit);
    }
  }

  /** A template that calls the end of input.  */
  const END_CALL: seq<Rule> := [
    Rule.Rule(ROOT, None, Call("A", LESS)),
    Rule.Rule(STATEMENT_ROOT, None, LESS),
    Rule.Rule("A", Some("D"), Call(END_RULE, Reference("D")))]

  /** The walk accepts it, and the rule that calls it calls nothing, whatever the depth.  */
  lemma EndCallUndefined() returns (x: Fixed)
    ensures FromFiles(x, END_CALL, [], [], map[]) && ROOT in x.env.resolved
    ensures forall limit: nat :: limit >= 1 ==> RuleForm(x.env, ROOT, limit) == Err(NoTemplate)
  {
    hide Expand, Reachable, ResolvedMap, Indexes, Overrides, Resolves;
    x := ThreeRules(END_CALL, {ROOT, STATEMENT_ROOT, END_RULE});
    RootsAreRules(END_CALL, {ROOT, STATEMENT_ROOT, END_RULE});
    EndIsOverridden(x);
    EndCallReachable(x.env);
    forall limit: nat | limit >= 1 ensures RuleForm(x.env, ROOT, limit) == Err(NoTemplate) {
      EndCallExpands(x.env, limit);
    }
  }

  lemma EndIsOverridden(x: Fixed)
    requires NamesFromFiles(x, END_CALL, [], map[])
    ensures END_RULE !in x.env.bodies && END_RULE in x.env.resolved && !x.env.resolved[END_RULE].Body?
  {
    forall rule | rule in END_CALL ensures rule.name != END_RULE {
      assert |END_RULE| == 10 && |ROOT| == 7 && |STATEMENT_ROOT| == 17 && |"A"| == 1;
    }
    assert Resolution(x.env.bodies, map[], CLASS_RULES, END_RULE) == Some(Override(Node.EndOfInput));
  }

  lemma EndCallExpands(env: Env, limit: nat)
    requires "A" in env.bodies && env.bodies["A"] == END_CALL[2] && END_RULE !in env.bodies
    requires "A" in env.resolved && env.resolved["A"] == Body(END_CALL[2].body) && limit >= 1
    ensures Expand(env, END_CALL[0].body, map[], limit) == Err(NoTemplate)
  {
    LessIsSymbol(env);
    var inner := map["D" := Form.Symbol("<")];
    assert Expand(env, END_CALL[2].body, inner, limit - 1) == Err(NoTemplate);
  }

  lemma EndCallReachable(env: Env)
    requires forall i :: 0 <= i < 3 ==>
              && END_CALL[i].name in env.bodies && env.bodies[END_CALL[i].name] == END_CALL[i]
              && END_CALL[i].name in env.resolved && env.resolved[END_CALL[i].name] == Body(END_CALL[i].body)
    requires END_RULE in env.resolved && !env.resolved[END_RULE].Body?
    ensures Reachable(env.bodies, env.resolved, {ROOT, STATEMENT_ROOT, END_RULE})
  {
    assert END_CALL[0].name == ROOT && END_CALL[1].name == STATEMENT_ROOT && END_CALL[2].name == "A";
    assert Inner(env.bodies, "A") == {END_RULE};
    assert InnerAll(env.bodies, {"A"}) == {END_RULE};
    assert InnerAll(env.bodies, {}) == {};
    assert Successors(env.bodies, env.resolved, ROOT) == {END_RULE};
    assert Successors(env.bodies, env.resolved, STATEMENT_ROOT) == {};
    assert Successors(env.bodies, env.resolved, END_RULE) == {};
  }
}
