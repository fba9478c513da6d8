/** Compiling rule bodies into the flat table: every node the compiler pushes stands for the body it
    was compiled from, templates substituted.  */
module Compiler {
  import opened RuleTable
  import opened Syntax
  import opened Meaning

  /** The table as it grows.  `ids` numbers the rules that will be in it.  */
  datatype Parts = Parts(nodes: seq<Node>, children: seq<nat>, symbols: seq<string>)

  /** What does not change while compiling.  */
  datatype Fixed = Fixed(env: Env, ids: map<string, nat>, keywords: seq<RuleTable.Word>, wordIds: map<string, nat>)

  ghost predicate FixedOk(x: Fixed) {
    && x.env.words == x.wordIds.Keys
    && (forall t :: t in x.wordIds ==> x.wordIds[t] < |x.keywords| && x.keywords[x.wordIds[t]].text == t)
    && x.ids.Keys == x.env.reached
    && (forall n :: n in x.ids ==> x.ids[n] < |x.ids|)
    && (forall n :: n in x.env.resolved ==>
          match x.env.resolved[n]
          case Override(node) => Standalone(node)
          case Class(k) => k < CLASSES
          case Body(body) => NoEmptyList(body))
  }

  /** Node `n` stands for the form `f`.  */
  ghost predicate Represents(x: Fixed, p: Parts, n: nat, f: Form)
    decreases f
  {
    && n < |p.nodes|
    && match f
       case Leaf(node) => p.nodes[n] == node && Standalone(node)
       case Word(text) =>
         p.nodes[n].Keyword? && p.nodes[n].index < |x.keywords| && x.keywords[p.nodes[n].index].text == text
       case Symbol(text) =>
         p.nodes[n].Symbol? && p.nodes[n].index < |p.symbols| && p.symbols[p.nodes[n].index] == text
       case Ref(name) => name in x.ids && p.nodes[n] == Node.Rule(x.ids[name])
       case Seq(items) =>
         p.nodes[n].Sequence? && RepresentsAll(x, p, p.nodes[n].start, p.nodes[n].len, items)
       case Alt(items) =>
         p.nodes[n].Choice? && RepresentsAll(x, p, p.nodes[n].start, p.nodes[n].len, items)
       case Opt(inner) => p.nodes[n].Optional? && Represents(x, p, p.nodes[n].child, inner)
       case Rep(inner) => p.nodes[n].Repeat? && Represents(x, p, p.nodes[n].child, inner)
  }

  ghost predicate RepresentsAll(x: Fixed, p: Parts, start: nat, len: nat, items: seq<Form>)
    decreases items
  {
    && len == |items| && start + len <= |p.children|
    && forall i :: 0 <= i < |items| ==> Represents(x, p, p.children[start..start + len][i], items[i])
  }

  /** Appending to the table leaves what is in it alone.  */
  ghost predicate Extends(p: Parts, q: Parts) {
    p.nodes <= q.nodes && p.children <= q.children && p.symbols <= q.symbols
  }

  lemma {:induction false} RepresentsLater(x: Fixed, p: Parts, q: Parts, n: nat, f: Form)
    requires Represents(x, p, n, f) && Extends(p, q)
    ensures Represents(x, q, n, f)
    decreases f
  {
    assert q.nodes[n] == p.nodes[n];
    match f
    case Seq(items) => RepresentsAllLater(x, p, q, p.nodes[n].start, p.nodes[n].len, items);
    case Alt(items) => RepresentsAllLater(x, p, q, p.nodes[n].start, p.nodes[n].len, items);
    case Opt(inner) => RepresentsLater(x, p, q, p.nodes[n].child, inner);
    case Rep(inner) => RepresentsLater(x, p, q, p.nodes[n].child, inner);
    case _ =>
  }

  lemma {:induction false} RepresentsAllLater(x: Fixed, p: Parts, q: Parts, start: nat, len: nat, items: seq<Form>)
    requires RepresentsAll(x, p, start, len, items) && Extends(p, q)
    ensures RepresentsAll(x, q, start, len, items)
    decreases items
  {
    assert q.children[start..start + len] == p.children[start..start + len];
    forall i | 0 <= i < |items| ensures Represents(x, q, q.children[start..start + len][i], items[i]) {
      RepresentsLater(x, p, q, p.children[start..start + len][i], items[i]);
    }
  }

  /** Every index in the table is in range, and the symbols are distinct.  */
  ghost predicate PartsOk(x: Fixed, p: Parts) {
    && (forall n :: 0 <= n < |p.nodes| ==> NodeFits(x, p, p.nodes[n]))
    && (forall i :: 0 <= i < |p.children| ==> p.children[i] < |p.nodes|)
    && (forall i, j :: 0 <= i < j < |p.symbols| ==> p.symbols[i] != p.symbols[j])
  }

  ghost predicate NodeFits(x: Fixed, p: Parts, node: Node) {
    match node
    case Keyword(i) => i < |x.keywords|
    case Symbol(i) => i < |p.symbols|
    case Rule(id) => id < |x.ids|
    case Sequence(start, len) => 0 < len && start + len <= |p.children|
    case Choice(start, len) => 0 < len && start + len <= |p.children|
    case Optional(child) => child < |p.nodes|
    case Repeat(child) => child < |p.nodes|
    case Identifier(suggestion, _) => suggestion < 11
    case _ => true
  }

  class Compiler {
    const x: Fixed
    var nodes: seq<Node>
    var children: seq<nat>
    var symbols: seq<string>

    ghost function Made(): (p: Parts)
      reads this
    {
      Parts(nodes, children, symbols)
    }

    ghost predicate Valid()
      reads this
    {
      FixedOk(x) && PartsOk(x, Made())
    }

    constructor (x: Fixed)
      requires FixedOk(x)
      ensures Valid() && this.x == x && Made() == Parts([], [], [])
    {
      this.x := x;
      nodes, children, symbols := [], [], [];
    }

    method Push(node: Node) returns (n: nat)
      requires Valid() && NodeFits(x, Made(), node)
      modifies this
      ensures Valid() && n == old(|nodes|)
      ensures Made() == old(Made()).(nodes := old(nodes) + [node])
    {
      nodes := nodes + [node];
      n := |nodes| - 1;
    }

    /** What a compile of `e` leaves behind.  */
    ghost predicate Compiled(before: Parts, e: Expr, forms: map<string, Form>, limit: nat, r: Result<nat>)
      reads this
    {
      && Valid() && Extends(before, Made())
      && match Expand(x.env, e, forms, limit)
         case Ok(form) => r.Ok? && Represents(x, Made(), r.value, form)
         case Err(error) => r == Err(error)
    }

    /** The bound parameters and what they are bound to.  */
    ghost predicate Binds(bound: map<string, nat>, forms: map<string, Form>)
      reads this
    {
      bound.Keys == forms.Keys && forall d :: d in bound ==> Represents(x, Made(), bound[d], forms[d])
    }

    /** Compiles one expression: fails as its expansion fails, and otherwise the node it returns stands
        for the expansion.  */
    method Compile(e: Expr, bound: map<string, nat>, limit: nat, ghost forms: map<string, Form>)
      returns (r: Result<nat>)
      requires Valid() && NoEmptyList(e) && Binds(bound, forms)
      modifies this
      ensures Compiled(old(Made()), e, forms, limit, r)
      decreases limit, e, 1
    {
      match e {
        case Literal(text) =>
          r := CompileLiteral(text);
        case Reference(name) =>
          if name in bound {
            return Ok(bound[name]);
          }
          if name !in x.ids {
            return Err(Unreached);
          }
          var n := Push(Node.Rule(x.ids[name]));
          return Ok(n);
        case Call(name, argument) =>
          r := CompileCall(name, argument, bound, limit, forms);
        case Sequence(items) =>
          r := CompileList(items, bound, limit, forms, true);
        case Choice(items) =>
          r := CompileList(items, bound, limit, forms, false);
        case Optional(inner) =>
          r := Compile(inner, bound, limit, forms);
          if r.Ok? {
            r := Wrap(Node.Optional(r.value), Expand(x.env, inner, forms, limit).value);
          }
        case Repeat(inner) =>
          r := Compile(inner, bound, limit, forms);
          if r.Ok? {
            r := Wrap(Node.Repeat(r.value), Expand(x.env, inner, forms, limit).value);
          }
        case Not(_) => return Err(Unsupported);
        case Capture(_) => return Err(Unsupported);
        case CharClass(_) => return Err(Unsupported);
      }
    }

    /** Pushes an optional or a repeat over a node just compiled.  */
    method Wrap(node: Node, ghost inner: Form) returns (r: Result<nat>)
      requires Valid() && (node.Optional? || node.Repeat?)
      requires Represents(x, Made(), node.child, inner)
      modifies this
      ensures Valid() && Extends(old(Made()), Made())
      ensures r.Ok? && Represents(x, Made(), r.value, if node.Optional? then Opt(inner) else Rep(inner))
    {
      var n := Push(node);
      RepresentsLater(x, old(Made()), Made(), node.child, inner);
      return Ok(n);
    }

    /** Compiles the items of a sequence or a choice, then the span that lists them.  */
    method CompileList(items: seq<Expr>, bound: map<string, nat>, limit: nat,
                       ghost forms: map<string, Form>, sequence: bool)
      returns (r: Result<nat>)
      requires Valid() && items != [] && Binds(bound, forms)
      requires forall i :: 0 <= i < |items| ==> NoEmptyList(items[i])
      modifies this
      ensures Valid() && Extends(old(Made()), Made())
      ensures match ExpandAll(x.env, items, forms, limit)
              case Ok(list) => r.Ok? && Represents(x, Made(), r.value, if sequence then Seq(list) else Alt(list))
              case Err(error) => r == Err(error)
      decreases limit, items, 1
    {
      var compiled := CompileItems(items, bound, limit, forms);
      if compiled.Err? {
        return Err(compiled.error);
      }
      r := PushSpan(compiled.value, ExpandAll(x.env, items, forms, limit).value, sequence);
    }

    /** Appends a span to the child list and pushes the node over it.  */
    method PushSpan(kids: seq<nat>, ghost list: seq<Form>, sequence: bool) returns (r: Result<nat>)
      requires Valid() && |kids| == |list| && kids != []
      requires forall i :: 0 <= i < |kids| ==> Represents(x, Made(), kids[i], list[i])
      modifies this
      ensures Valid() && Extends(old(Made()), Made())
      ensures r.Ok? && Represents(x, Made(), r.value, if sequence then Seq(list) else Alt(list))
    {
      ghost var before := Made();
      var start, len := |children|, |kids|;
      children := children + kids;
      assert PartsOk(x, Made()) by {
        forall i | 0 <= i < |children| ensures children[i] < |nodes| {
          if i >= start {
            assert Represents(x, before, kids[i - start], list[i - start]);
          }
        }
      }
      var n := Push(if sequence then Node.Sequence(start, len) else Node.Choice(start, len));
      assert Extends(before, Made());
      assert Made().children[start..start + len] == kids;
      forall i | 0 <= i < len ensures Represents(x, Made(), kids[i], list[i]) {
        RepresentsLater(x, before, Made(), kids[i], list[i]);
      }
      return Ok(n);
    }

    method CompileItems(items: seq<Expr>, bound: map<string, nat>, limit: nat, ghost forms: map<string, Form>)
      returns (r: Result<seq<nat>>)
      requires Valid() && Binds(bound, forms)
      requires forall i :: 0 <= i < |items| ==> NoEmptyList(items[i])
      modifies this
      ensures Valid() && Extends(old(Made()), Made())
      ensures match ExpandAll(x.env, items, forms, limit)
              case Ok(list) =>
                r.Ok? && |r.value| == |list| && forall i :: 0 <= i < |list| ==> Represents(x, Made(), r.value[i], list[i])
              case Err(error) => r == Err(error)
      decreases limit, items, 0
    {
      hide FixedOk, PartsOk, NodeFits;
      if items == [] {
        return Ok([]);
      }
      var first := Compile(items[0], bound, limit, forms);
      if first.Err? {
        return Err(first.error);
      }
      ghost var middle := Made();
      BindsLater(bound, forms, old(Made()));
      var rest := CompileItems(items[1..], bound, limit, forms);
      if rest.Err? {
        return Err(rest.error);
      }
      RepresentsLater(x, middle, Made(), first.value, Expand(x.env, items[0], forms, limit).value);
      return Ok([first.value] + rest.value);
    }

    lemma BindsLater(bound: map<string, nat>, forms: map<string, Form>, before: Parts)
      requires Extends(before, Made()) && bound.Keys == forms.Keys
      requires forall d :: d in bound ==> Represents(x, before, bound[d], forms[d])
      ensures Binds(bound, forms)
    {
      forall d | d in bound ensures Represents(x, Made(), bound[d], forms[d]) {
        RepresentsLater(x, before, Made(), bound[d], forms[d]);
      }
    }

    /** Monomorphizes a template at its call site.  */
    method CompileCall(name: string, argument: Expr, bound: map<string, nat>, limit: nat,
                       ghost forms: map<string, Form>)
      returns (r: Result<nat>)
      requires Valid() && NoEmptyList(argument) && Binds(bound, forms)
      modifies this
      ensures Compiled(old(Made()), Call(name, argument), forms, limit, r)
      decreases limit, argument, 2
    {
      if name !in x.env.bodies {
        return Err(NoTemplate);
      }
      var parameter := x.env.bodies[name].parameter;
      if parameter.None? {
        return Err(NoParameter);
      }
      var compiled := Compile(argument, bound, limit, forms);
      if compiled.Err? {
        return compiled;
      }
      if name !in x.env.resolved || !x.env.resolved[name].Body? {
        return Err(NotOrdinary);
      }
      if limit == 0 {
        return Err(Overflow);
      }
      ghost var form := Expand(x.env, argument, forms, limit).value;
      r := Compile(x.env.resolved[name].body, map[parameter.value := compiled.value], limit - 1,
                   map[parameter.value := form]);
    }

    /** A word becomes a keyword index, anything else a symbol, listed once.  */
    method CompileLiteral(text: string) returns (r: Result<nat>)
      requires Valid()
      modifies this
      ensures Valid() && Extends(old(Made()), Made())
      ensures match ExpandLiteral(x.env, text)
              case Ok(form) => r.Ok? && Represents(x, Made(), r.value, form)
              case Err(error) => r == Err(error)
    {
      if text == "" {
        return Err(EmptyLiteral);
      }
      if IsWord(text) {
        if Lower(text) !in x.wordIds {
          return Err(UnknownWord);
        }
        var n := Push(Node.Keyword(x.wordIds[Lower(text)]));
        return Ok(n);
      }
      var at := Find(symbols, text);
      var index;
      if at.Some? {
        index := at.value;
      } else {
        symbols := symbols + [text];
        index := |symbols| - 1;
      }
      var n := Push(Node.Symbol(index));
      return Ok(n);
    }
  }
}
