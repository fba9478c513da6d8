/** The grammar meta-language: rules and their bodies.  */
module Syntax {
  import opened RuleTable

  /** A rule body.  `Reference` names a rule or the parameter of the rule it stands in.  */
  datatype Expr =
    | Literal(text: string)
    | Reference(name: string)
    | Call(name: string, argument: Expr)
    | Sequence(items: seq<Expr>)
    | Choice(items: seq<Expr>)
    | Optional(inner: Expr)
    | Repeat(inner: Expr)
    | Not(inner: Expr)
    | Capture(inner: Expr)
    | CharClass(text: string)

  datatype Rule = Rule(name: string, parameter: Option<string>, body: Expr)

  /** No list in the body is empty, which is how the parser builds them.  */
  predicate NoEmptyList(e: Expr) {
    match e
    case Sequence(items) => items != [] && forall i :: 0 <= i < |items| ==> NoEmptyList(items[i])
    case Choice(items) => items != [] && forall i :: 0 <= i < |items| ==> NoEmptyList(items[i])
    case Call(_, argument) => NoEmptyList(argument)
    case Optional(inner) => NoEmptyList(inner)
    case Repeat(inner) => NoEmptyList(inner)
    case Not(inner) => NoEmptyList(inner)
    case Capture(inner) => NoEmptyList(inner)
    case _ => true
  }

  /** The rules a body mentions outside of call position.  */
  function References(e: Expr): (names: set<string>) {
    match e
    case Reference(name) => {name}
    case Call(_, argument) => References(argument)
    case Sequence(items) => set i, n | 0 <= i < |items| && n in References(items[i]) :: n
    case Choice(items) => set i, n | 0 <= i < |items| && n in References(items[i]) :: n
    case Optional(inner) => References(inner)
    case Repeat(inner) => References(inner)
    case Not(inner) => References(inner)
    case Capture(inner) => References(inner)
    case _ => {}
  }

  /** The templates a body calls.  */
  function Calls(e: Expr): (names: set<string>) {
    match e
    case Call(name, argument) => {name} + Calls(argument)
    case Sequence(items) => set i, n | 0 <= i < |items| && n in Calls(items[i]) :: n
    case Choice(items) => set i, n | 0 <= i < |items| && n in Calls(items[i]) :: n
    case Optional(inner) => Calls(inner)
    case Repeat(inner) => Calls(inner)
    case Not(inner) => Calls(inner)
    case Capture(inner) => Calls(inner)
    case _ => {}
  }

  // ---------------------------------------------------------------------------------------------
  // Mentions, by the parts of an expression

  /** The parts right under an expression.  */
  function Parts(e: Expr): seq<Expr> {
    match e
    case Call(_, argument) => [argument]
    case Sequence(items) => items
    case Choice(items) => items
    case Optional(inner) => [inner]
    case Repeat(inner) => [inner]
    case Not(inner) => [inner]
    case Capture(inner) => [inner]
    case _ => []
  }

  /** A way down from an expression, as the number of a part at every level.  */
  ghost predicate LeadsTo(e: Expr, way: seq<nat>, part: Expr)
    decreases |way|
  {
    if way == [] then e == part else way[0] < |Parts(e)| && LeadsTo(Parts(e)[way[0]], way[1..], part)
  }

  ghost predicate Has(e: Expr, part: Expr) {
    exists way: seq<nat> :: LeadsTo(e, way, part)
  }

  lemma HasBelow(e: Expr, i: nat, part: Expr)
    requires i < |Parts(e)| && Has(Parts(e)[i], part)
    ensures Has(e, part)
  {
    var way: seq<nat> :| LeadsTo(Parts(e)[i], way, part);
    assert ([i] + way)[1..] == way;
    assert LeadsTo(e, [i] + way, part);
  }

  lemma HasItself(e: Expr)
    ensures Has(e, e)
  {
    assert LeadsTo(e, [], e);
  }

  /** What a body mentions is what some part of it is a reference to.  */
  lemma {:induction false} ReferencesAre(e: Expr, name: string)
    ensures name in References(e) <==> Has(e, Reference(name))
    decreases e
  {
    forall i: nat | i < |Parts(e)| ensures name in References(Parts(e)[i]) <==> Has(Parts(e)[i], Reference(name)) {
      PartSmaller(e, i);
      ReferencesAre(Parts(e)[i], name);
    }
    if name in References(e) {
      if e.Reference? {
        HasItself(e);
      } else {
        var i: nat :| i < |Parts(e)| && name in References(Parts(e)[i]);
        HasBelow(e, i, Reference(name));
      }
    }
    if way: seq<nat> :| LeadsTo(e, way, Reference(name)) {
      if way != [] {
        assert LeadsTo(Parts(e)[way[0]], way[1..], Reference(name));
      }
    }
  }

  lemma PartSmaller(e: Expr, i: nat)
    requires i < |Parts(e)|
    ensures e decreases to Parts(e)[i]
  {}

  /** What a body calls is what some part of it is a call of.  */
  lemma {:induction false} CallsAre(e: Expr, name: string)
    ensures name in Calls(e) <==> exists argument: Expr :: Has(e, Call(name, argument))
    decreases e
  {
    forall i: nat | i < |Parts(e)|
      ensures name in Calls(Parts(e)[i]) <==> exists argument: Expr :: Has(Parts(e)[i], Call(name, argument))
    {
      PartSmaller(e, i);
      CallsAre(Parts(e)[i], name);
    }
    if name in Calls(e) {
      if e.Call? && e.name == name {
        HasItself(e);
      } else {
        var i: nat :| i < |Parts(e)| && name in Calls(Parts(e)[i]);
        var argument: Expr :| Has(Parts(e)[i], Call(name, argument));
        HasBelow(e, i, Call(name, argument));
      }
    }
    if argument: Expr :| Has(e, Call(name, argument)) {
      var way: seq<nat> :| LeadsTo(e, way, Call(name, argument));
      if way != [] {
        assert LeadsTo(Parts(e)[way[0]], way[1..], Call(name, argument));
      }
    }
  }
}
