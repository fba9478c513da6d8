/** Which rules survive: everything reachable from the two roots, templates expanded in place.  */
module Reach {
  import opened RuleTable
  import opened Sets
  import opened Syntax
  import opened Meaning

  const ROOT: string := "Program"
  const STATEMENT_ROOT: string := "TopLevelStatement"

  ghost const Roots: set<string> := {ROOT, STATEMENT_ROOT}

  /** What a called template makes reachable: what its body mentions, less its own parameter.  */
  function Inner(bodies: map<string, Rule>, template: string): (names: set<string>) {
    if template in bodies && bodies[template].parameter.Some? then
      (References(bodies[template].body) - {bodies[template].parameter.value}) + Calls(bodies[template].body)
    else {}
  }

  /** What several called templates make reachable.  */
  ghost function InnerAll(bodies: map<string, Rule>, templates: set<string>): (names: set<string>) {
    set t, n | t in templates && n in Inner(bodies, t) :: n
  }

  /** What a rule makes reachable.  */
  ghost function Successors(bodies: map<string, Rule>, resolved: map<string, Resolved>, name: string): (names: set<string>) {
    if name in resolved && resolved[name].Body? then
      References(resolved[name].body) + InnerAll(bodies, Calls(resolved[name].body))
    else {}
  }

  /** A rule that can be walked: something defines it, every template it calls is one, and everything
      it makes reachable is defined.  */
  ghost predicate Sound(bodies: map<string, Rule>, resolved: map<string, Resolved>, name: string) {
    && name in resolved
    && (resolved[name].Body? ==> AllTemplates(bodies, Calls(resolved[name].body)))
    && Successors(bodies, resolved, name) <= resolved.Keys
  }

  /** Holds the roots and everything they make reachable.  */
  ghost predicate Closure(bodies: map<string, Rule>, resolved: map<string, Resolved>, names: set<string>) {
    Roots <= names && forall x :: x in names ==> Successors(bodies, resolved, x) <= names
  }

  /** The least closure, all of it sound.  */
  ghost predicate Reachable(bodies: map<string, Rule>, resolved: map<string, Resolved>, names: set<string>) {
    && Closure(bodies, resolved, names)
    && (forall other: set<string> :: Closure(bodies, resolved, other) ==> names <= other)
    && (forall x :: x in names ==> Sound(bodies, resolved, x))
  }

  ghost predicate AllTemplates(bodies: map<string, Rule>, templates: set<string>) {
    forall t :: t in templates ==> t in bodies && bodies[t].parameter.Some?
  }

  /** The names one rule makes reachable, or nothing when a template it calls is not one.  */
  method Referenced(bodies: map<string, Rule>, body: Expr) returns (r: Option<set<string>>)
    ensures r.Some? <==> AllTemplates(bodies, Calls(body))
    ensures r.Some? ==> r.value == References(body) + InnerAll(bodies, Calls(body))
  {
    hide InnerAll, Inner, References, Calls;
    NoInner(bodies);
    var referenced := References(body);
    var left := Calls(body);
    ghost var done: set<string> := {};
    while left != {}
      invariant done + left == Calls(body)
      invariant AllTemplates(bodies, done)
      invariant referenced == References(body) + InnerAll(bodies, done)
      decreases |left|
    {
      var template :| template in left;
      if template !in bodies || bodies[template].parameter.None? {
        return None;
      }
      InnerAllGrows(bodies, done, template);
      referenced := referenced + Inner(bodies, template);
      left, done := left - {template}, done + {template};
    }
    return Some(referenced);
  }

  lemma NoInner(bodies: map<string, Rule>)
    ensures InnerAll(bodies, {}) == {}
  {}

  lemma InnerAllGrows(bodies: map<string, Rule>, templates: set<string>, t: string)
    ensures InnerAll(bodies, templates + {t}) == InnerAll(bodies, templates) + Inner(bodies, t)
  {}

  /** What holds of the walk: `done` has been walked, the rest of `seen` is still queued.  */
  ghost predicate Walking(bodies: map<string, Rule>, resolved: map<string, Resolved>,
                          seen: set<string>, queue: seq<string>, done: set<string>)
  {
    && Roots <= seen && seen <= resolved.Keys + Roots && done <= seen
    && (forall i :: 0 <= i < |queue| ==> queue[i] in seen)
    && (forall x :: x in seen ==> x in done || x in queue)
    && (forall x :: x in done ==> Sound(bodies, resolved, x) && Successors(bodies, resolved, x) <= seen)
    && (forall other: set<string> :: Closure(bodies, resolved, other) ==> seen <= other)
  }

  ghost function Elements(names: seq<string>): (r: set<string>) {
    set i | 0 <= i < |names| :: names[i]
  }

  lemma NoElements()
    ensures Elements([]) == {}
  {}

  lemma ElementsPush(names: seq<string>, name: string)
    ensures Elements(names + [name]) == Elements(names) + {name}
  {
    forall x | x in Elements(names) ensures x in Elements(names + [name]) {
      var i :| 0 <= i < |names| && names[i] == x;
      assert (names + [name])[i] == x;
    }
    assert (names + [name])[|names|] == name;
  }

  lemma DistinctPush(names: seq<string>, name: string)
    requires Distinct(names) && name !in Elements(names)
    ensures Distinct(names + [name])
  {
    forall i | 0 <= i < |names| ensures names[i] != name {
      assert names[i] in Elements(names);
    }
  }

  lemma OneMore<T>(names: set<T>, seen: set<T>, done: set<T>, left: set<T>, next: T)
    requires done + left == names && next in left
    ensures (done + {next}) + (left - {next}) == names
    ensures next in seen + done ==>
              seen + (done + {next}) == seen + done && (done + {next}) - seen == done - seen
    ensures next !in seen + done ==>
              seen + (done + {next}) == seen + done + {next} && (done + {next}) - seen == (done - seen) + {next}
  {}

  /** The names not seen before, each once, unless one of them is undefined.  */
  method Visit(defined: set<string>, names: set<string>, seen: set<string>)
    returns (ok: bool, added: seq<string>)
    ensures ok <==> names <= defined
    ensures ok ==> Elements(added) == names - seen && Distinct(added)
  {
    hide Elements;
    NoElements();
    added := [];
    var now := seen;
    var left := names;
    ghost var done: set<string> := {};
    while left != {}
      invariant done + left == names && done <= defined
      invariant now == seen + done
      invariant Elements(added) == done - seen && Distinct(added)
      decreases |left|
    {
      var next :| next in left;
      if next !in defined {
        return false, added;
      }
      OneMore(names, seen, done, left, next);
      if next !in now {
        ElementsPush(added, next);
        DistinctPush(added, next);
        now, added := now + {next}, added + [next];
      }
      left, done := left - {next}, done + {next};
    }
    return true, added;
  }

  /** The names the rule `name` makes reachable, or nothing when it is not sound.  */
  method Expose(bodies: map<string, Rule>, resolved: map<string, Resolved>, name: string)
    returns (names: Option<set<string>>)
    ensures names.None? ==> !Sound(bodies, resolved, name)
    ensures names.Some? ==> names.value == Successors(bodies, resolved, name)
    ensures names.Some? && names.value <= resolved.Keys ==> Sound(bodies, resolved, name)
  {
    if name !in resolved {
      return None;
    }
    if !resolved[name].Body? {
      return Some({});
    }
    names := Referenced(bodies, resolved[name].body);
  }

  /** Walks from the roots.  Succeeds with the least closed set exactly when every rule in it is sound:
      on failure every closed set holds a rule that is not.  */
  method Walk(bodies: map<string, Rule>, resolved: map<string, Resolved>) returns (r: Option<set<string>>)
    ensures r.Some? ==> Reachable(bodies, resolved, r.value)
    ensures r.None? ==> forall other: set<string> :: Closure(bodies, resolved, other) ==>
                          exists x :: x in other && !Sound(bodies, resolved, x)
  {
    hide Successors, Sound;
    var seen: set<string> := {ROOT, STATEMENT_ROOT};
    var queue := [ROOT, STATEMENT_ROOT];
    ghost var done: set<string> := {};
    while queue != []
      invariant Walking(bodies, resolved, seen, queue, done)
      decreases |(resolved.Keys + Roots) - seen|, |queue|
    {
      var name := queue[0];
      var names := Expose(bodies, resolved, name);
      if names.None? {
        BadName(bodies, resolved, seen, queue, done, name);
        return None;
      }
      var ok, added := Visit(resolved.Keys, names.value, seen);
      if !ok {
        UnsoundNames(bodies, resolved, name, names.value);
        BadName(bodies, resolved, seen, queue, done, name);
        return None;
      }
      StepWalks(bodies, resolved, seen, queue, done, names.value, added);
      if added != [] {
        assert added[0] in Elements(added);
        Shrinks(resolved.Keys + Roots, seen, seen + names.value);
      } else {
        assert Elements(added) == {} && seen + names.value == seen;
      }
      seen, queue := seen + names.value, queue[1..] + added;
      done := done + {name};
    }
    return Some(seen);
  }

  lemma UnsoundNames(bodies: map<string, Rule>, resolved: map<string, Resolved>, name: string, names: set<string>)
    requires names == Successors(bodies, resolved, name) && !(names <= resolved.Keys)
    ensures !Sound(bodies, resolved, name)
  {}

  lemma Shrinks(all: set<string>, seen: set<string>, more: set<string>)
    requires seen < more <= all
    ensures |all - more| < |all - seen|
  {
    var x :| x in more && x !in seen;
    assert all - more <= (all - seen) - {x};
    SubsetSmaller(all - more, (all - seen) - {x});
  }

  lemma BadName(bodies: map<string, Rule>, resolved: map<string, Resolved>,
                seen: set<string>, queue: seq<string>, done: set<string>, name: string)
    requires Walking(bodies, resolved, seen, queue, done) && name in seen && !Sound(bodies, resolved, name)
    ensures forall other: set<string> :: Closure(bodies, resolved, other) ==>
              exists x :: x in other && !Sound(bodies, resolved, x)
  {}

  lemma StepWalks(bodies: map<string, Rule>, resolved: map<string, Resolved>,
                  seen: set<string>, queue: seq<string>, done: set<string>,
                  names: set<string>, added: seq<string>)
    requires Walking(bodies, resolved, seen, queue, done) && queue != []
    requires Sound(bodies, resolved, queue[0]) && names == Successors(bodies, resolved, queue[0])
    requires Elements(added) == names - seen
    ensures Walking(bodies, resolved, seen + names, queue[1..] + added, done + {queue[0]})
  {
    hide Successors, Sound;
    var later := queue[1..] + added;
    forall other: set<string> | Closure(bodies, resolved, other) ensures seen + names <= other {
      assert queue[0] in other;
    }
    forall x | x in seen + names ensures x in done + {queue[0]} || x in later {
      if x !in seen {
        assert x in Elements(added);
      } else if x !in done && x != queue[0] {
        assert x in queue[1..];
      }
    }
    forall i | 0 <= i < |later| ensures later[i] in seen + names {
      if i >= |queue| - 1 {
        assert added[i - (|queue| - 1)] in Elements(added);
      }
    }
    SoundNames(bodies, resolved, queue[0]);
  }

  lemma SoundNames(bodies: map<string, Rule>, resolved: map<string, Resolved>, name: string)
    requires Sound(bodies, resolved, name)
    ensures Successors(bodies, resolved, name) <= resolved.Keys
  {}

  // ---------------------------------------------------------------------------------------------
  // What reachability buys the compiler

  /** A template that can be expanded: it survived as a rule, or all it makes reachable did.  */
  ghost predicate Good(env: Env, t: string) {
    t in env.reached || Inner(env.bodies, t) <= env.reached
  }

  /** Every name in `e` that is not bound survived, and every call is of a good template.  */
  ghost predicate Covered(env: Env, e: Expr, bound: set<string>) {
    References(e) - bound <= env.reached && forall t :: t in Calls(e) ==> Good(env, t)
  }

  ghost predicate EnvReached(env: Env) {
    && Reachable(env.bodies, env.resolved, env.reached)
    && forall x :: x in env.resolved && env.resolved[x].Body? ==>
         x in env.bodies && env.resolved[x].body == env.bodies[x].body
  }

  /** A surviving rule's body is covered.  */
  lemma ReachedCovered(env: Env, name: string)
    requires EnvReached(env) && name in env.reached && name in env.resolved && env.resolved[name].Body?
    ensures Covered(env, env.resolved[name].body, {})
  {
    var body := env.resolved[name].body;
    assert Successors(env.bodies, env.resolved, name) <= env.reached;
    forall t | t in Calls(body) ensures Good(env, t) {
      forall n | n in Inner(env.bodies, t) ensures n in env.reached {
        assert n in Successors(env.bodies, env.resolved, name);
      }
    }
  }

  /** So is a good template's, its parameter bound.  */
  lemma TemplateCovered(env: Env, t: string)
    requires EnvReached(env) && Good(env, t) && t in env.bodies && env.bodies[t].parameter.Some?
    requires t in env.resolved && env.resolved[t].Body?
    ensures Covered(env, env.resolved[t].body, {env.bodies[t].parameter.value})
  {
    if t in env.reached {
      ReachedCovered(env, t);
    }
  }

  /** Compiling what survived never comes across a reference that did not.  */
  lemma {:induction false} NeverUnreached(env: Env, e: Expr, bound: map<string, Form>, limit: nat)
    requires EnvReached(env) && Covered(env, e, bound.Keys)
    ensures Expand(env, e, bound, limit) != Err(Unreached)
    decreases limit, e, 1
  {
    match e
    case Call(name, argument) =>
      NeverUnreached(env, argument, bound, limit);
      if name in env.bodies && env.bodies[name].parameter.Some? && name in env.resolved
         && env.resolved[name].Body? && limit > 0 && Expand(env, argument, bound, limit).Ok? {
        TemplateCovered(env, name);
        var inner := map[env.bodies[name].parameter.value := Expand(env, argument, bound, limit).value];
        assert inner.Keys == {env.bodies[name].parameter.value};
        NeverUnreached(env, env.resolved[name].body, inner, limit - 1);
      }
    case Sequence(items) => NeverUnreachedAll(env, items, bound, limit);
    case Choice(items) => NeverUnreachedAll(env, items, bound, limit);
    case Optional(inner) => NeverUnreached(env, inner, bound, limit);
    case Repeat(inner) => NeverUnreached(env, inner, bound, limit);
    case _ =>
  }

  lemma {:induction false} NeverUnreachedAll(env: Env, items: seq<Expr>, bound: map<string, Form>, limit: nat)
    requires EnvReached(env) && forall i :: 0 <= i < |items| ==> Covered(env, items[i], bound.Keys)
    ensures ExpandAll(env, items, bound, limit) != Err(Unreached)
    decreases limit, items, 0
  {
    if items != [] {
      NeverUnreached(env, items[0], bound, limit);
      NeverUnreachedAll(env, items[1..], bound, limit);
    }
  }

  /** So no surviving rule fails for a name that did not survive.  */
  lemma RuleNeverUnreached(env: Env, name: string, limit: nat)
    requires EnvReached(env) && name in env.reached && name in env.resolved
    ensures RuleForm(env, name, limit) != Err(Unreached)
  {
    if env.resolved[name].Body? {
      ReachedCovered(env, name);
      NeverUnreached(env, env.resolved[name].body, map[], limit);
    }
  }
}
