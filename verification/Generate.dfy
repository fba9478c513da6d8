/** The whole generator: resolve names, keep what is reachable, compile, solve, check.  */
module Generate {
  import opened RuleTable
  import opened First
  import opened Progress
  import opened Parse
  import opened Syntax
  import opened Meaning
  import opened Reach
  import opened Compiler
  import opened Preservation
  import opened Ordering

  datatype Refusal =
    | Duplicate                // two rules of one name
    | BadOverride              // an override this compiler does not know
    | Unwalkable               // a reachable rule is missing something it needs
    | BadBody(error: Failure)  // a reachable body cannot be compiled
    | Unmemoizable             // a memoized rule did not survive
    | EmptyRepeat              // a repeat whose body can match nothing

  datatype Outcome = Generated(table: Table) | Refused(why: Refusal)

  // ---------------------------------------------------------------------------------------------
  // Names

  ghost predicate DistinctNames(parsed: seq<Rule>) {
    forall i, j :: 0 <= i < j < |parsed| ==> parsed[i].name != parsed[j].name
  }

  /** Exactly the parsed rules, by name.  */
  ghost predicate Indexes(parsed: seq<Rule>, bodies: map<string, Rule>) {
    && (forall i :: 0 <= i < |parsed| ==> parsed[i].name in bodies && bodies[parsed[i].name] == parsed[i])
    && (forall n :: n in bodies ==> bodies[n] in parsed && bodies[n].name == n)
  }

  method IndexRules(parsed: seq<Rule>) returns (bodies: Option<map<string, Rule>>)
    ensures bodies.Some? <==> DistinctNames(parsed)
    ensures bodies.Some? ==> Indexes(parsed, bodies.value)
  {
    var m: map<string, Rule> := map[];
    for at := 0 to |parsed|
      invariant DistinctNames(parsed[..at]) && Indexes(parsed[..at], m)
    {
      var rule := parsed[at];
      assert parsed[..at + 1] == parsed[..at] + [rule];
      if rule.name in m {
        assert m[rule.name] in parsed[..at];
        return None;
      }
      m := m[rule.name := rule];
    }
    assert parsed[..|parsed|] == parsed;
    return Some(m);
  }

  /** The terminal the last line for a name describes.  */
  ghost function LastOverride(lines: seq<Overriding>, name: string): (node: Option<Node>)
    ensures node.Some? ==> Standalone(node.value)
  {
    if lines == [] then None
    else
      var last := lines[|lines| - 1];
      if last.name == name then Terminal(last) else LastOverride(lines[..|lines| - 1], name)
  }

  ghost predicate Overrides(lines: seq<Overriding>, m: map<string, Node>) {
    forall n: string ::
      (n in m <==> LastOverride(lines, n).Some?) && (n in m ==> LastOverride(lines, n) == Some(m[n]))
  }

  method ReadOverrides(lines: seq<Overriding>) returns (r: Option<map<string, Node>>)
    ensures r.Some? <==> forall i :: 0 <= i < |lines| ==> Terminal(lines[i]).Some?
    ensures r.Some? ==> Overrides(lines, r.value)
  {
    var m: map<string, Node> := map[];
    for at := 0 to |lines|
      invariant forall i :: 0 <= i < at ==> Terminal(lines[i]).Some?
      invariant Overrides(lines[..at], m)
    {
      var node := Terminal(lines[at]);
      if node.None? {
        return None;
      }
      assert lines[..at + 1][..at] == lines[..at];
      m := m[lines[at].name := node.value];
    }
    assert lines[..|lines|] == lines;
    return Some(m);
  }

  /** Every name with the meaning the order of precedence gives it.  */
  ghost predicate Resolves(bodies: map<string, Rule>, overriding: map<string, Node>, classRules: seq<string>,
                           resolved: map<string, Resolved>)
  {
    forall n: string ::
      (n in resolved <==> Resolution(bodies, overriding, classRules, n).Some?)
      && (n in resolved ==> Resolution(bodies, overriding, classRules, n) == Some(resolved[n]))
  }

  /** Names already taken are left alone, so the later lists go underneath the earlier ones.  */
  method Resolve(bodies: map<string, Rule>, overriding: map<string, Node>, classRules: seq<string>)
    returns (resolved: map<string, Resolved>)
    ensures Resolves(bodies, overriding, classRules, resolved)
  {
    resolved := map n | n in overriding :: Override(overriding[n]);
    resolved := map[END_RULE := Override(Node.EndOfInput)] + resolved;
    resolved := (map n | n in classRules :: Class(Find(classRules, n).value)) + resolved;
    resolved := (map n | n in bodies :: Body(bodies[n].body)) + resolved;
  }

  /** Numbers the surviving rules in byte order of their names.  */
  method NumberRules(names: seq<string>) returns (ids: map<string, nat>)
    requires Ascending(names)
    ensures |ids| == |names|
    ensures forall i :: 0 <= i < |names| ==> names[i] in ids
    ensures forall n :: n in ids ==> ids[n] < |names| && names[ids[n]] == n
  {
    AscendingDistinct(names);
    ids := map[];
    for at := 0 to |names|
      invariant |ids| == at
      invariant forall i :: 0 <= i < at ==> names[i] in ids
      invariant forall n :: n in ids ==> ids[n] < at && names[ids[n]] == n
    {
      ids := ids[names[at] := at];
    }
  }

  /** The index of every word.  */
  method NumberWords(keywords: seq<RuleTable.Word>) returns (ids: map<string, nat>)
    requires DistinctWords(keywords)
    ensures forall t :: t in ids ==> ids[t] < |keywords| && keywords[ids[t]].text == t
    ensures forall i :: 0 <= i < |keywords| ==> keywords[i].text in ids
  {
    ids := map[];
    for at := 0 to |keywords|
      invariant forall t :: t in ids ==> ids[t] < at && keywords[ids[t]].text == t
      invariant forall i :: 0 <= i < at ==> keywords[i].text in ids
    {
      ids := ids[keywords[at].text := at];
    }
  }

  // ---------------------------------------------------------------------------------------------
  // The table

  /** What names stand for, as the grammar's files determine it.  */
  ghost predicate NamesFromFiles(x: Fixed, parsed: seq<Rule>, lines: seq<Overriding>, overriding: map<string, Node>) {
    && Indexes(parsed, x.env.bodies)
    && (forall i :: 0 <= i < |lines| ==> Terminal(lines[i]).Some?)
    && Overrides(lines, overriding)
    && Resolves(x.env.bodies, overriding, CLASS_RULES, x.env.resolved)
  }

  /** The fixed part of a compile, as the grammar's files determine it.  */
  ghost predicate FromFiles(x: Fixed, parsed: seq<Rule>, keywords: seq<RuleTable.Word>,
                            lines: seq<Overriding>, overriding: map<string, Node>)
  {
    && NamesFromFiles(x, parsed, lines, overriding)
    && Reachable(x.env.bodies, x.env.resolved, x.env.reached)
    && x.keywords == keywords
    && (forall t :: t in x.env.words <==> exists i :: 0 <= i < |keywords| && keywords[i].text == t)
  }

  /** The first `count` rules, in order of their numbers, are compiled.  */
  ghost predicate Builds(x: Fixed, p: Parts, rules: seq<RuleTable.Compiled>, names: seq<string>, limit: nat)
  {
    && |rules| <= |names|
    && forall i :: 0 <= i < |rules| ==>
         && rules[i].name == names[i] && names[i] in x.env.resolved
         && RuleForm(x.env, names[i], limit).Ok?
         && Represents(x, p, rules[i].root, RuleForm(x.env, names[i], limit).value)
  }

  /** The code holds every surviving rule, numbered in byte order, each standing for its form.  */
  ghost predicate Describes(c: Code, x: Fixed, limit: nat) {
    && c.keywords == x.keywords && |c.rules| == |x.ids|
    && (forall i, j :: 0 <= i < j < |c.rules| ==> Before(c.rules[i].name, c.rules[j].name))
    && (forall n :: n in x.ids ==>
          && x.ids[n] < |c.rules| && c.rules[x.ids[n]].name == n
          && n in x.env.resolved && RuleForm(x.env, n, limit).Ok?
          && Represents(x, PartsOf(c), c.rules[x.ids[n]].root, RuleForm(x.env, n, limit).value))
  }

  /** Compiles the surviving rules one after another.  */
  method CompileRules(x: Fixed, names: seq<string>, memoized: set<string>, limit: nat)
    returns (r: Result<Code>)
    requires FixedOk(x) && Ascending(names) && |x.ids| == |names| && x.env.reached <= x.env.resolved.Keys
    requires forall n :: n in x.ids ==> x.ids[n] < |names| && names[x.ids[n]] == n
    requires forall i :: 0 <= i < |names| ==> names[i] in x.ids
    ensures r.Ok? ==> CodeOk(r.value) && Distinct(r.value.symbols) && Describes(r.value, x, limit)
    ensures r.Ok? ==> forall i :: 0 <= i < |r.value.rules| ==>
              (r.value.rules[i].memoized <==> r.value.rules[i].name in memoized)
    ensures r.Err? ==> exists n :: n in x.env.reached && n in x.env.resolved && RuleForm(x.env, n, limit) == Err(r.error)
  {
    var compiler := new Compiler(x);
    var rules: seq<RuleTable.Compiled> := [];
    for at := 0 to |names|
      invariant compiler.Valid() && compiler.x == x
      invariant |rules| == at && Builds(x, compiler.Made(), rules, names, limit)
      invariant forall i :: 0 <= i < at ==> (rules[i].memoized <==> rules[i].name in memoized)
    {
      var name := names[at];
      ghost var before := compiler.Made();
      var root := CompileRule(compiler, name, limit);
      if root.Err? {
        return Err(root.error);
      }
      BuildsMore(x, before, compiler.Made(), rules, names, limit,
                 RuleTable.Compiled(name, root.value, name in memoized));
      rules := rules + [RuleTable.Compiled(name, root.value, name in memoized)];
    }
    var c := Code(compiler.nodes, compiler.children, rules, compiler.symbols, x.keywords);
    BuiltCode(x, compiler.Made(), c, names, limit);
    return Ok(c);
  }

  method CompileRule(compiler: Compiler, name: string, limit: nat) returns (r: Result<nat>)
    requires compiler.Valid() && name in compiler.x.env.resolved
    modifies compiler
    ensures compiler.Valid() && Extends(old(compiler.Made()), compiler.Made())
    ensures match RuleForm(compiler.x.env, name, limit)
            case Ok(form) => r.Ok? && Represents(compiler.x, compiler.Made(), r.value, form)
            case Err(error) => r == Err(error)
  {
    match compiler.x.env.resolved[name] {
      case Body(body) =>
        r := compiler.Compile(body, map[], limit, map[]);
      case Override(node) =>
        var n := compiler.Push(node);
        r := Ok(n);
      case Class(k) =>
        var n := compiler.Push(KeywordClass({k}));
        r := Ok(n);
    }
  }

  lemma BuildsMore(x: Fixed, p: Parts, q: Parts, rules: seq<RuleTable.Compiled>, names: seq<string>, limit: nat,
                   rule: RuleTable.Compiled)
    requires Builds(x, p, rules, names, limit) && Extends(p, q) && |rules| < |names|
    requires rule.name == names[|rules|] && rule.name in x.env.resolved
    requires RuleForm(x.env, rule.name, limit).Ok?
    requires Represents(x, q, rule.root, RuleForm(x.env, rule.name, limit).value)
    ensures Builds(x, q, rules + [rule], names, limit)
  {
    forall i | 0 <= i < |rules|
      ensures Represents(x, q, rules[i].root, RuleForm(x.env, names[i], limit).value)
    {
      RepresentsLater(x, p, q, rules[i].root, RuleForm(x.env, names[i], limit).value);
    }
  }

  lemma BuiltCode(x: Fixed, p: Parts, c: Code, names: seq<string>, limit: nat)
    requires FixedOk(x) && PartsOk(x, p) && Builds(x, p, c.rules, names, limit) && |c.rules| == |names| == |x.ids|
    requires PartsOf(c) == p && c.keywords == x.keywords && Ascending(names)
    requires forall n :: n in x.ids ==> x.ids[n] < |names| && names[x.ids[n]] == n
    ensures CodeOk(c) && Distinct(c.symbols) && Describes(c, x, limit)
  {
    forall n | 0 <= n < |c.nodes| ensures NodeOk(c, c.nodes[n]) {
      assert NodeFits(x, p, p.nodes[n]);
    }
    forall r | 0 <= r < |c.rules| ensures c.rules[r].root < |c.nodes| {
      assert Represents(x, p, c.rules[r].root, RuleForm(x.env, names[r], limit).value);
    }
  }

  /** The last check: no repeat whose body can match nothing.  */
  method CheckRepeats(c: Code, nullable: seq<bool>) returns (ok: bool)
    requires CodeOk(c) && |nullable| == |c.nodes|
    ensures ok <==> NoEmptyRepeat(c, nullable)
  {
    for n := 0 to |c.nodes|
      invariant forall m :: 0 <= m < n && c.nodes[m].Repeat? ==> !nullable[c.nodes[m].child]
    {
      if c.nodes[n].Repeat? && nullable[c.nodes[n].child] {
        return false;
      }
    }
    return true;
  }

  /** Why a refusal was right.  */
  ghost predicate Deserved(why: Refusal, x: Fixed, overriding: map<string, Node>, parsed: seq<Rule>,
                           keywords: seq<RuleTable.Word>, lines: seq<Overriding>, memoized: set<string>, limit: nat)
  {
    match why
    case Duplicate => !DistinctNames(parsed)
    case BadOverride => exists i :: 0 <= i < |lines| && Terminal(lines[i]).None?
    case Unwalkable =>
      && NamesFromFiles(x, parsed, lines, overriding)
      && forall names :: !Reachable(x.env.bodies, x.env.resolved, names)
    case BadBody(error) =>
      && FromFiles(x, parsed, keywords, lines, overriding)
      && exists n :: n in x.env.reached && n in x.env.resolved && RuleForm(x.env, n, limit) == Err(error)
    case Unmemoizable => FromFiles(x, parsed, keywords, lines, overriding) && !(memoized <= x.env.reached)
    case EmptyRepeat =>
      && FromFiles(x, parsed, keywords, lines, overriding)
      && exists c: Code, a: Answer ::
           Describes(c, x, limit) && Solution(c, a) && Least(c, a) && !NoEmptyRepeat(c, a.nullable)
  }

  /** Everything up to the first body: names resolved, reachability walked, rules numbered.  */
  method Prepare(parsed: seq<Rule>, keywords: seq<RuleTable.Word>, lines: seq<Overriding>)
    returns (why: Option<Refusal>, x: Fixed, names: seq<string>, overriding: map<string, Node>)
    requires DistinctWords(keywords)
    requires forall i :: 0 <= i < |parsed| ==> NoEmptyList(parsed[i].body)
    ensures why.None? ==> FromFiles(x, parsed, keywords, lines, overriding) && Numbers(x, names)
    ensures why.Some? ==> !why.value.BadBody? && forall memoized, limit ::
              Deserved(why.value, x, overriding, parsed, keywords, lines, memoized, limit)
  {
    hide Reachable, Resolves, Overrides, Indexes, Resolution, DistinctNames, NoEmptyList;
    x, names, overriding := Fixed(Env(map[], map[], {}, {}), map[], [], map[]), [], map[];
    var bodies := IndexRules(parsed);
    if bodies.None? {
      return Some(Duplicate), x, names, overriding;
    }
    var overrides := ReadOverrides(lines);
    if overrides.None? {
      return Some(BadOverride), x, names, overriding;
    }
    overriding := overrides.value;
    var resolved := Resolve(bodies.value, overrides.value, CLASS_RULES);
    var reached := Walk(bodies.value, resolved);
    if reached.None? {
      Unreachable(bodies.value, resolved);
      x := Fixed(Env(bodies.value, resolved, {}, {}), map[], [], map[]);
      return Some(Unwalkable), x, names, overriding;
    }
    names := Sorted(reached.value);
    var ids := NumberRules(names);
    var wordIds := NumberWords(keywords);
    x := Fixed(Env(bodies.value, resolved, reached.value, wordIds.Keys), ids, keywords, wordIds);
    FixedFromFiles(x, parsed, keywords, lines, overriding, names);
    return None, x, names, overriding;
  }

  /** The surviving rules are numbered in byte order, both roots among them.  */
  ghost predicate Numbers(x: Fixed, names: seq<string>) {
    && FixedOk(x) && Ascending(names) && |x.ids| == |names| && x.env.reached <= x.env.resolved.Keys
    && (forall n :: n in x.ids ==> x.ids[n] < |names| && names[x.ids[n]] == n)
    && (forall i :: 0 <= i < |names| ==> names[i] in x.ids)
    && x.ids.Keys == x.env.reached && ROOT in x.ids && STATEMENT_ROOT in x.ids
  }

  /** A table the matcher can run, with the least FIRST sets, in which every surviving rule stands for its
      form, both entry points are the roots, and exactly the listed rules are memoized.  */
  ghost predicate Serves(t: Table, x: Fixed, memoized: set<string>, limit: nat) {
    && TableOk(t) && Least(t.code, AnswerOf(t)) && Describes(t.code, x, limit)
    && ROOT in x.ids && t.program == x.ids[ROOT]
    && STATEMENT_ROOT in x.ids && t.topLevel == x.ids[STATEMENT_ROOT]
    && x.ids.Keys == x.env.reached && memoized <= x.env.reached
    && forall i :: 0 <= i < |t.code.rules| ==> (t.code.rules[i].memoized <==> t.code.rules[i].name in memoized)
  }

  /** Compiles the grammar.  A table comes out only when it is one the matcher can run, and then every
      rule in it stands for what the grammar says, with templates substituted and overrides and keyword
      classes in place of bodies; a refusal is for the reason it gives.  */
  method GenerateTable(parsed: seq<Rule>, keywords: seq<RuleTable.Word>, lines: seq<Overriding>,
                       memoized: set<string>, limit: nat)
    returns (r: Outcome, x: Fixed, overriding: map<string, Node>)
    requires |keywords| <= NOT_A_KEYWORD && DistinctWords(keywords)
    requires forall i :: 0 <= i < |keywords| ==> forall k :: k in keywords[i].classes ==> k < CLASSES
    requires forall i :: 0 <= i < |parsed| ==> NoEmptyList(parsed[i].body)
    ensures r.Generated? ==>
              FromFiles(x, parsed, keywords, lines, overriding) && Serves(r.table, x, memoized, limit)
    ensures r.Refused? ==> Deserved(r.why, x, overriding, parsed, keywords, lines, memoized, limit)
    ensures r != Refused(BadBody(Unreached))
  {
    hide Indexes, Overrides, Resolves, Reachable, RuleForm, Represents, CodeOk, Equation, Least, NoEmptyRepeat, FixedOk;
    var why, fixed, names, over := Prepare(parsed, keywords, lines);
    x, overriding := fixed, over;
    if why.Some? {
      return Refused(why.value), x, overriding;
    }
    var code := CompileRules(fixed, names, memoized, limit);
    if code.Err? {
      BodiesReached(x, parsed, keywords, lines, overriding, limit);
      return Refused(BadBody(code.error)), x, overriding;
    }
    if !(memoized <= fixed.ids.Keys) {
      return Refused(Unmemoizable), x, overriding;
    }
    var masks := ClassMasks(keywords);
    var nullable, first, _ := Solve(code.value, masks);
    var ok := CheckRepeats(code.value, nullable);
    if !ok {
      assert Describes(code.value, x, limit) && Solution(code.value, Answer(nullable, first));
      return Refused(EmptyRepeat), x, overriding;
    }
    var table := Table(code.value, nullable, first, fixed.ids[ROOT], fixed.ids[STATEMENT_ROOT]);
    return Generated(table), x, overriding;
  }

  /** No surviving rule fails for a name that did not survive.  */
  lemma BodiesReached(x: Fixed, parsed: seq<Rule>, keywords: seq<RuleTable.Word>, lines: seq<Overriding>,
                      overriding: map<string, Node>, limit: nat)
    requires FromFiles(x, parsed, keywords, lines, overriding)
    ensures forall n :: n in x.env.reached && n in x.env.resolved ==> RuleForm(x.env, n, limit) != Err(Unreached)
  {
    hide Reachable, Indexes, Overrides, RuleForm;
    ResolvedBodies(x.env.bodies, overriding, x.env.resolved);
    forall n | n in x.env.reached && n in x.env.resolved ensures RuleForm(x.env, n, limit) != Err(Unreached) {
      RuleNeverUnreached(x.env, n, limit);
    }
  }

  lemma ResolvedBodies(bodies: map<string, Rule>, overriding: map<string, Node>, resolved: map<string, Resolved>)
    requires Resolves(bodies, overriding, CLASS_RULES, resolved)
    ensures forall n :: n in resolved && resolved[n].Body? ==> n in bodies && resolved[n].body == bodies[n].body
  {
    forall n | n in resolved && resolved[n].Body? ensures n in bodies && resolved[n].body == bodies[n].body {
      assert Resolution(bodies, overriding, CLASS_RULES, n) == Some(resolved[n]);
    }
  }

  lemma Unreachable(bodies: map<string, Rule>, resolved: map<string, Resolved>)
    requires forall other: set<string> :: Closure(bodies, resolved, other) ==>
               exists x :: x in other && !Sound(bodies, resolved, x)
    ensures forall names :: !Reachable(bodies, resolved, names)
  {
    hide Sound, Successors;
  }

  lemma FixedFromFiles(x: Fixed, parsed: seq<Rule>, keywords: seq<RuleTable.Word>, lines: seq<Overriding>,
                       overriding: map<string, Node>, names: seq<string>)
    requires Indexes(parsed, x.env.bodies) && Overrides(lines, overriding)
    requires forall i :: 0 <= i < |lines| ==> Terminal(lines[i]).Some?
    requires Resolves(x.env.bodies, overriding, CLASS_RULES, x.env.resolved)
    requires Reachable(x.env.bodies, x.env.resolved, x.env.reached)
    requires x.keywords == keywords && x.env.words == x.wordIds.Keys
    requires forall t :: t in x.wordIds ==> x.wordIds[t] < |keywords| && keywords[x.wordIds[t]].text == t
    requires forall i :: 0 <= i < |keywords| ==> keywords[i].text in x.wordIds
    requires forall i :: 0 <= i < |parsed| ==> NoEmptyList(parsed[i].body)
    requires Ascending(names) && (forall n :: n in names <==> n in x.env.reached)
    requires |x.ids| == |names|
    requires forall i :: 0 <= i < |names| ==> names[i] in x.ids
    requires forall n :: n in x.ids ==> x.ids[n] < |names| && names[x.ids[n]] == n
    ensures FromFiles(x, parsed, keywords, lines, overriding) && Numbers(x, names)
  {
    hide Successors, NoEmptyList, Find, Ascending, Closure;
    ResolvedOk(x.env.bodies, overriding, x.env.resolved, parsed, lines);
    RootsReached(x.env);
    assert x.ids.Keys == x.env.reached;
  }

  lemma RootsReached(env: Env)
    requires Reachable(env.bodies, env.resolved, env.reached)
    ensures ROOT in env.reached && STATEMENT_ROOT in env.reached && env.reached <= env.resolved.Keys
  {
    hide Successors;
  }

  lemma ResolvedOk(bodies: map<string, Rule>, overriding: map<string, Node>, resolved: map<string, Resolved>,
                   parsed: seq<Rule>, lines: seq<Overriding>)
    requires Indexes(parsed, bodies) && Overrides(lines, overriding)
    requires Resolves(bodies, overriding, CLASS_RULES, resolved)
    requires forall i :: 0 <= i < |parsed| ==> NoEmptyList(parsed[i].body)
    ensures forall n :: n in resolved ==>
              match resolved[n]
              case Override(node) => Standalone(node)
              case Class(k) => k < CLASSES
              case Body(body) => NoEmptyList(body)
  {
    hide NoEmptyList;
    forall n | n in resolved
      ensures match resolved[n]
              case Override(node) => Standalone(node)
              case Class(k) => k < CLASSES
              case Body(body) => NoEmptyList(body)
    {
      assert Resolution(bodies, overriding, CLASS_RULES, n) == Some(resolved[n]);
    }
  }
}
