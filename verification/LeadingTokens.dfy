/** FIRST from the other side: which bits a node has, said of the tokens its matches can begin with.  */
module LeadingTokens {
  import opened RuleTable
  import opened First
  import opened Filter

  // ---------------------------------------------------------------------------------------------
  // Bits and tokens

  /** The bit of each kind of token, and the bucket of each keyword.  */
  lemma KeyBits(t: Token)
    ensures t.kind == Kind.Identifier || t.kind == Kind.QuotedIdentifier ==> TokenKey(t) == 0
    ensures t.kind == Kind.Number ==> TokenKey(t) == 1
    ensures t.kind == Kind.String ==> TokenKey(t) == 2
    ensures t.kind == Kind.Operator ==> TokenKey(t) == 3
    ensures t.kind == Kind.Terminator ==> TokenKey(t) == 4
    ensures t.kind == Kind.EndOfInput ==> TokenKey(t) == 5
    ensures t.kind == Kind.Keyword && t.keyword != 65535 ==> TokenKey(t) == 6 + t.keyword % 58
  {}

  /** Keywords and symbols as a table has them.  */
  ghost predicate Settled(c: Code) {
    KeywordsOk(c) && |c.symbols| <= 255 && Distinct(c.symbols)
  }

  /** `t` is keyed as the tokenizer keys it, the node takes it, and its bit is `bit`.  */
  ghost predicate Witnesses(c: Code, node: Node, bit: nat, t: Token)
    requires NodeOk(c, node) && !node.Composite()
  {
    WellKeyed(c, t) && Accepts(c, node, t) && TokenKey(t) == bit
  }

  ghost predicate Witnessed(c: Code, node: Node, bit: nat)
    requires NodeOk(c, node) && !node.Composite()
  {
    exists t: Token :: Witnesses(c, node, bit, t)
  }

  /** Text that is no symbol.  */
  ghost function Apart(c: Code): (text: string)
    ensures text !in c.symbols && text != "."
  {
    seq(Longest(c.symbols) + 2, _ => 'x')
  }

  /** A token of a kind whose text is no symbol, or which is keyed as its symbol, is well keyed.  */
  lemma KeyedToken(c: Code, kind: Kind, keyword: nat, text: string)
    requires Settled(c)
    requires if keyword == NOT_A_KEYWORD then kind != Kind.Keyword
             else keyword < |c.keywords| && kind == (if c.keywords[keyword].classes == {} then Kind.Identifier else Kind.Keyword)
    requires text in c.symbols ==> TokenKey(Token(kind, keyword, text, false, false)) in SymbolFirst(text)
    ensures WellKeyed(c, Token(kind, keyword, text, false, false))
  {
    hide SymbolOk;
    SymbolOkBySpelling(c, Token(kind, keyword, text, false, false));
  }

  /** The token that a word of the table arrives as.  */
  ghost function WordToken(c: Code, i: nat): Token
    requires i < |c.keywords|
  {
    Token(if c.keywords[i].classes == {} then Kind.Identifier else Kind.Keyword, i, Apart(c), false, false)
  }

  lemma WordKeyed(c: Code, i: nat)
    requires Settled(c) && i < |c.keywords|
    ensures WellKeyed(c, WordToken(c, i))
    ensures TokenKey(WordToken(c, i)) == if c.keywords[i].classes == {} then 0 else 6 + i % 58
  {
    KeyedToken(c, WordToken(c, i).kind, i, Apart(c));
  }

  // ---------------------------------------------------------------------------------------------
  // Terminals

  /** A bit of a terminal that is no name has a token behind it.  */
  lemma TerminalWitness(c: Code, node: Node, bit: nat)
    requires Settled(c) && NodeOk(c, node) && !node.Composite() && !node.Identifier? && bit in TerminalFirst(c, node)
    ensures Witnessed(c, node, bit)
  {
    hide SymbolOk;
    match node
    case Keyword(i) =>
      WordKeyed(c, i);
      assert Witnesses(c, node, bit, WordToken(c, i));
    case KeywordClass(mask) =>
      var k: nat :| k < CLASSES && k in mask && bit in ClassBuckets(c.keywords, k);
      var i: nat :| i < |c.keywords| && k in c.keywords[i].classes && bit == Bucket(i);
      WordKeyed(c, i);
      assert k in ClassesOf(c, WordToken(c, i)) * mask;
      assert Witnesses(c, node, bit, WordToken(c, i));
    case Symbol(i) => SymbolWitness(c, i, bit);
    case Operator =>
      KeyedToken(c, Kind.Operator, NOT_A_KEYWORD, "**");
      assert "**" !in NOT_OPERATORS;
      assert Witnesses(c, node, bit, Token(Kind.Operator, NOT_A_KEYWORD, "**", false, false));
    case Number => KindWitness(c, node, Kind.Number, bit);
    case String => KindWitness(c, node, Kind.String, bit);
    case EndOfInput => KindWitness(c, node, Kind.EndOfInput, bit);
  }

  lemma KindWitness(c: Code, node: Node, kind: Kind, bit: nat)
    requires Settled(c) && NodeOk(c, node) && !node.Composite() && bit in TerminalFirst(c, node)
    requires match node
             case Number => kind == Kind.Number
             case String => kind == Kind.String
             case EndOfInput => kind == Kind.EndOfInput
             case _ => false
    ensures Witnessed(c, node, bit)
  {
    KeyedToken(c, kind, NOT_A_KEYWORD, Apart(c));
    assert Witnesses(c, node, bit, Token(kind, NOT_A_KEYWORD, Apart(c), false, false));
  }

  lemma SymbolWitness(c: Code, i: nat, bit: nat)
    requires Settled(c) && i < |c.symbols| && bit in SymbolFirst(c.symbols[i])
    ensures Witnessed(c, Symbol(i), bit)
  {
    hide SymbolOk;
    var text := c.symbols[i];
    var kind := if bit == FIRST_TERMINATOR then Kind.Terminator else if bit == FIRST_NUMBER then Kind.Number else Kind.Operator;
    KeyedToken(c, kind, NOT_A_KEYWORD, text);
    SymbolCodesAreExact(c.symbols);
    assert CodeAgrees(c.symbols, text, i);
    assert Witnesses(c, Symbol(i), bit, Token(kind, NOT_A_KEYWORD, text, false, false));
  }

  /** FIRST of a terminal that is no name is tight: it has a bit exactly when a token it takes has that bit.  */
  lemma TerminalFirstTight(c: Code, node: Node, bit: nat)
    requires Settled(c) && NodeOk(c, node) && !node.Composite() && !node.Identifier?
    ensures bit in TerminalFirst(c, node) <==> Witnessed(c, node, bit)
  {
    hide Accepts, TerminalFirst, WellKeyed;
    if bit in TerminalFirst(c, node) {
      TerminalWitness(c, node, bit);
    }
    if t: Token :| Witnesses(c, node, bit, t) {
      TerminalFirstSound(c, node, t);
    }
  }

  /** The bits of a symbol: a semicolon's own, a dot's as a number or an operator, any other's as an
      operator.  */
  lemma SymbolBits(c: Code, i: nat)
    requires i < |c.symbols|
    ensures TerminalFirst(c, Symbol(i)) == if c.symbols[i] == ";" then {4} else if c.symbols[i] == "." then {1, 3} else {3}
  {}

  /** FIRST of a name is wider than what it takes, on purpose: the identifier bit and every bucket, and the
      string bit exactly where some string is taken.  */
  lemma NameFirst(c: Code, code: nat, reserved: bool, bit: nat)
    requires Settled(c) && code < 11
    ensures var node := Node.Identifier(code, reserved);
            bit in TerminalFirst(c, node) <==> bit == 0 || 6 <= bit < 64 || (bit == 2 && Witnessed(c, node, 2))
    ensures Witnessed(c, Node.Identifier(code, reserved), 0)
  {
    hide WellKeyed;
    var node := Node.Identifier(code, reserved);
    KeyedToken(c, Kind.Identifier, NOT_A_KEYWORD, Apart(c));
    assert Witnesses(c, node, 0, Token(Kind.Identifier, NOT_A_KEYWORD, Apart(c), false, false));
    if SupportsString(code) {
      var text := "'" + Apart(c);
      assert |text| > Longest(c.symbols);
      KeyedToken(c, Kind.String, NOT_A_KEYWORD, text);
      assert Witnesses(c, node, 2, Token(Kind.String, NOT_A_KEYWORD, text, false, false));
    }
  }

  // ---------------------------------------------------------------------------------------------
  // Nodes

  /** A match that begins with a terminal can begin with this bit.  */
  ghost predicate Begins(c: Code, node: Node, bit: nat)
    requires NodeOk(c, node) && !node.Composite()
  {
    Witnessed(c, node, bit) || (node.Identifier? && 6 <= bit < 64)
  }

  lemma BeginsIsFirst(c: Code, node: Node, bit: nat)
    requires Settled(c) && NodeOk(c, node) && !node.Composite()
    ensures bit in TerminalFirst(c, node) <==> Begins(c, node, bit)
  {
    hide TerminalFirst, Witnessed;
    if node.Identifier? {
      NameFirst(c, node.suggestion, node.reserved, bit);
      if Witnessed(c, node, bit) {
        WitnessedName(c, node, bit);
      }
    } else {
      TerminalFirstTight(c, node, bit);
    }
  }

  lemma WitnessedName(c: Code, node: Node, bit: nat)
    requires Settled(c) && NodeOk(c, node) && node.Identifier? && Witnessed(c, node, bit)
    ensures bit == 0 || bit == 2 || 6 <= bit < 64
  {}

  /** A node can match nothing, by at most `steps` steps down.  */
  ghost predicate Vanishes(c: Code, n: nat, steps: nat)
    requires CodeOk(c) && n < |c.nodes|
    decreases steps
  {
    steps > 0 &&
    match c.nodes[n]
    case Optional(_) => true
    case Repeat(child) => Vanishes(c, child, steps - 1)
    case Rule(id) => Vanishes(c, c.rules[id].root, steps - 1)
    case Sequence(start, len) => forall i :: 0 <= i < len ==> Vanishes(c, Child(c, start, len, i), steps - 1)
    case Choice(start, len) => exists i :: 0 <= i < len && Vanishes(c, Child(c, start, len, i), steps - 1)
    case _ => false
  }

  ghost function Child(c: Code, start: nat, len: nat, i: nat): (n: nat)
    requires CodeOk(c) && start + len <= |c.children| && i < len
    ensures n < |c.nodes| && n == Span(c, start, len)[i]
  {
    c.children[start + i]
  }

  /** A match of a node can begin with this bit, by at most `steps` steps down: to a child of a sequence
      only when all before it can match nothing.  */
  ghost predicate Leads(c: Code, n: nat, bit: nat, steps: nat)
    requires CodeOk(c) && n < |c.nodes|
    decreases steps, 0
  {
    steps > 0 &&
    var less: nat := steps - 1;
    match c.nodes[n]
    case Optional(child) => Leads(c, child, bit, less)
    case Repeat(child) => Leads(c, child, bit, less)
    case Rule(id) => Leads(c, c.rules[id].root, bit, less)
    case Sequence(start, len) => exists i :: 0 <= i < len && LeadsAt(c, start, len, i, bit, less)
    case Choice(start, len) => exists i :: 0 <= i < len && Leads(c, Child(c, start, len, i), bit, less)
    case node => Begins(c, node, bit)
  }

  ghost predicate LeadsAt(c: Code, start: nat, len: nat, i: nat, bit: nat, steps: nat)
    requires CodeOk(c) && start + len <= |c.children| && i < len
    decreases steps, 1
  {
    && (forall j :: 0 <= j < i ==> Vanishes(c, Child(c, start, len, j), steps))
    && Leads(c, Child(c, start, len, i), bit, steps)
  }

  // More steps do not hurt.

  lemma {:induction false} VanishesMore(c: Code, n: nat, steps: nat, more: nat)
    requires CodeOk(c) && n < |c.nodes| && Vanishes(c, n, steps) && steps <= more
    ensures Vanishes(c, n, more)
    decreases steps
  {
    match c.nodes[n]
    case Repeat(child) => VanishesMore(c, child, steps - 1, more - 1);
    case Rule(id) => VanishesMore(c, c.rules[id].root, steps - 1, more - 1);
    case Sequence(start, len) =>
      forall i | 0 <= i < len ensures Vanishes(c, Child(c, start, len, i), more - 1) {
        VanishesMore(c, Child(c, start, len, i), steps - 1, more - 1);
      }
    case Choice(start, len) =>
      var i :| 0 <= i < len && Vanishes(c, Child(c, start, len, i), steps - 1);
      VanishesMore(c, Child(c, start, len, i), steps - 1, more - 1);
    case _ =>
  }

  lemma {:induction false} LeadsMore(c: Code, n: nat, bit: nat, steps: nat, more: nat)
    requires CodeOk(c) && n < |c.nodes| && Leads(c, n, bit, steps) && steps <= more
    ensures Leads(c, n, bit, more)
    decreases steps, 0
  {
    hide Begins, LeadsAt, Vanishes;
    match c.nodes[n]
    case Optional(child) => LeadsMore(c, child, bit, steps - 1, more - 1);
    case Repeat(child) => LeadsMore(c, child, bit, steps - 1, more - 1);
    case Rule(id) => LeadsMore(c, c.rules[id].root, bit, steps - 1, more - 1);
    case Sequence(start, len) =>
      var i :| 0 <= i < len && LeadsAt(c, start, len, i, bit, steps - 1);
      LeadsAtMore(c, start, len, i, bit, steps - 1, more - 1);
    case Choice(start, len) =>
      var i :| 0 <= i < len && Leads(c, Child(c, start, len, i), bit, steps - 1);
      LeadsMore(c, Child(c, start, len, i), bit, steps - 1, more - 1);
    case _ =>
  }

  lemma {:induction false} LeadsAtMore(c: Code, start: nat, len: nat, i: nat, bit: nat, steps: nat, more: nat)
    requires CodeOk(c) && start + len <= |c.children| && i < len && LeadsAt(c, start, len, i, bit, steps) && steps <= more
    ensures LeadsAt(c, start, len, i, bit, more)
    decreases steps, 1
  {
    hide Vanishes, Leads;
    forall j | 0 <= j < i ensures Vanishes(c, Child(c, start, len, j), more) {
      VanishesMore(c, Child(c, start, len, j), steps, more);
    }
    LeadsMore(c, Child(c, start, len, i), bit, steps, more);
  }

  // Whatever leads or vanishes is in every closed answer.

  lemma {:induction false} VanishesBelow(c: Code, a: Answer, n: nat, steps: nat)
    requires Closed(c, a) && n < |c.nodes| && Vanishes(c, n, steps)
    ensures a.nullable[n]
    decreases steps
  {
    assert Below(Equation(c, c.nodes[n], a), (a.nullable[n], a.first[n]));
    match c.nodes[n]
    case Repeat(child) => VanishesBelow(c, a, child, steps - 1);
    case Rule(id) => VanishesBelow(c, a, c.rules[id].root, steps - 1);
    case Sequence(start, len) =>
      forall i | 0 <= i < len ensures a.nullable[Span(c, start, len)[i]] {
        VanishesBelow(c, a, Child(c, start, len, i), steps - 1);
      }
    case Choice(start, len) =>
      var i :| 0 <= i < len && Vanishes(c, Child(c, start, len, i), steps - 1);
      VanishesBelow(c, a, Child(c, start, len, i), steps - 1);
    case _ =>
  }

  lemma {:induction false} InSequenceFirst(kids: seq<nat>, a: Answer, i: nat, bit: nat)
    requires Within(kids, |a.nullable|) && |a.first| == |a.nullable| && i < |kids| && bit in a.first[kids[i]]
    requires forall j :: 0 <= j < i ==> a.nullable[kids[j]]
    ensures bit in SequenceFirst(kids, a)
    decreases i
  {
    if i > 0 {
      InSequenceFirst(kids[1..], a, i - 1, bit);
    }
  }

  lemma {:induction false} FromSequenceFirst(kids: seq<nat>, a: Answer, bit: nat) returns (i: nat)
    requires Within(kids, |a.nullable|) && |a.first| == |a.nullable| && bit in SequenceFirst(kids, a)
    ensures i < |kids| && bit in a.first[kids[i]] && forall j :: 0 <= j < i ==> a.nullable[kids[j]]
  {
    if bit in a.first[kids[0]] {
      i := 0;
    } else {
      var later := FromSequenceFirst(kids[1..], a, bit);
      i := later + 1;
      assert forall j :: 0 < j < i ==> kids[j] == kids[1..][j - 1];
    }
  }

  lemma {:induction false} LeadsBelow(c: Code, a: Answer, n: nat, bit: nat, steps: nat)
    requires Settled(c) && Closed(c, a) && n < |c.nodes| && Leads(c, n, bit, steps)
    ensures bit in a.first[n]
    decreases steps
  {
    hide TerminalFirst, Begins;
    assert Below(Equation(c, c.nodes[n], a), (a.nullable[n], a.first[n]));
    match c.nodes[n]
    case Optional(child) => LeadsBelow(c, a, child, bit, steps - 1);
    case Repeat(child) => LeadsBelow(c, a, child, bit, steps - 1);
    case Rule(id) => LeadsBelow(c, a, c.rules[id].root, bit, steps - 1);
    case Sequence(start, len) =>
      var kids := Span(c, start, len);
      var i :| 0 <= i < len && LeadsAt(c, start, len, i, bit, steps - 1);
      forall j | 0 <= j < i ensures a.nullable[kids[j]] {
        VanishesBelow(c, a, Child(c, start, len, j), steps - 1);
      }
      LeadsBelow(c, a, Child(c, start, len, i), bit, steps - 1);
      InSequenceFirst(kids, a, i, bit);
    case Choice(start, len) =>
      var i :| 0 <= i < len && Leads(c, Child(c, start, len, i), bit, steps - 1);
      LeadsBelow(c, a, Child(c, start, len, i), bit, steps - 1);
      assert Child(c, start, len, i) == Span(c, start, len)[i];
    case node => BeginsIsFirst(c, node, bit);
  }

  // And nothing else is in the least.

  ghost predicate EverVanishes(c: Code, n: nat)
    requires CodeOk(c) && n < |c.nodes|
  {
    exists steps: nat :: Vanishes(c, n, steps)
  }

  ghost predicate EverLeads(c: Code, n: nat, bit: nat)
    requires CodeOk(c) && n < |c.nodes|
  {
    exists steps: nat :: Leads(c, n, bit, steps)
  }

  /** Exactly what leads and what vanishes.  */
  ghost function Derived(c: Code): (a: Answer)
    requires CodeOk(c)
    ensures Fits(c, a)
    ensures forall n :: 0 <= n < |c.nodes| ==> (a.nullable[n] <==> EverVanishes(c, n))
    ensures forall n, b: nat :: 0 <= n < |c.nodes| ==> (b in a.first[n] <==> b < 64 && EverLeads(c, n, b))
  {
    Answer(seq(|c.nodes|, n requires 0 <= n < |c.nodes| => EverVanishes(c, n)),
           seq(|c.nodes|, n requires 0 <= n < |c.nodes| => set b: nat | b < 64 && EverLeads(c, n, b)))
  }

  /** A number of steps that is enough for the first `count` children.  */
  lemma {:induction false} AllVanish(c: Code, start: nat, len: nat, count: nat) returns (steps: nat)
    requires CodeOk(c) && start + len <= |c.children| && count <= len
    requires forall i :: 0 <= i < count ==> EverVanishes(c, Child(c, start, len, i))
    ensures forall i :: 0 <= i < count ==> Vanishes(c, Child(c, start, len, i), steps)
    decreases count
  {
    hide Vanishes;
    steps := 0;
    if count > 0 {
      var before := AllVanish(c, start, len, count - 1);
      var last := count - 1;
      var own: nat :| Vanishes(c, Child(c, start, len, last), own);
      steps := if before < own then own else before;
      forall i | 0 <= i < count ensures Vanishes(c, Child(c, start, len, i), steps) {
        VanishesMore(c, Child(c, start, len, i), if i < count - 1 then before else own, steps);
      }
    }
  }

  lemma DerivedVanishes(c: Code, n: nat)
    requires CodeOk(c) && n < |c.nodes| && Equation(c, c.nodes[n], Derived(c)).0
    ensures EverVanishes(c, n)
  {
    hide Derived;
    var a := Derived(c);
    match c.nodes[n]
    case Optional(_) => assert Vanishes(c, n, 1);
    case Repeat(child) =>
      var steps: nat :| Vanishes(c, child, steps);
      assert Vanishes(c, n, steps + 1);
    case Rule(id) =>
      var steps: nat :| Vanishes(c, c.rules[id].root, steps);
      assert Vanishes(c, n, steps + 1);
    case Sequence(start, len) =>
      assert forall i :: 0 <= i < len ==> Child(c, start, len, i) == Span(c, start, len)[i];
      var steps := AllVanish(c, start, len, len);
      assert Vanishes(c, n, steps + 1);
    case Choice(start, len) =>
      var i :| 0 <= i < len && a.nullable[Span(c, start, len)[i]];
      var steps: nat :| Vanishes(c, Child(c, start, len, i), steps);
      assert Vanishes(c, n, steps + 1);
    case _ =>
  }

  lemma DerivedLeads(c: Code, n: nat, bit: nat)
    requires Settled(c) && CodeOk(c) && n < |c.nodes| && bit in Equation(c, c.nodes[n], Derived(c)).1
    ensures EverLeads(c, n, bit)
  {
    hide Derived, TerminalFirst, Begins;
    var a := Derived(c);
    match c.nodes[n]
    case Optional(child) => StepLeads(c, n, child, bit);
    case Repeat(child) => StepLeads(c, n, child, bit);
    case Rule(id) => StepLeads(c, n, c.rules[id].root, bit);
    case Sequence(start, len) => SequenceLeads(c, n, bit);
    case Choice(start, len) =>
      var i :| 0 <= i < len && bit in a.first[Span(c, start, len)[i]];
      StepLeads(c, n, Child(c, start, len, i), bit);
    case node =>
      BeginsIsFirst(c, node, bit);
      assert Leads(c, n, bit, 1);
  }

  lemma StepLeads(c: Code, n: nat, child: nat, bit: nat)
    requires CodeOk(c) && n < |c.nodes| && child < |c.nodes| && EverLeads(c, child, bit)
    requires match c.nodes[n]
             case Optional(x) => x == child
             case Repeat(x) => x == child
             case Rule(id) => c.rules[id].root == child
             case Choice(start, len) => exists i :: 0 <= i < len && Child(c, start, len, i) == child
             case _ => false
    ensures EverLeads(c, n, bit)
  {
    var steps: nat :| Leads(c, child, bit, steps);
    assert Leads(c, n, bit, steps + 1);
  }

  lemma SequenceLeads(c: Code, n: nat, bit: nat)
    requires CodeOk(c) && n < |c.nodes| && c.nodes[n].Sequence? && bit in Equation(c, c.nodes[n], Derived(c)).1
    ensures EverLeads(c, n, bit)
  {
    hide Derived, Leads, Vanishes;
    var a := Derived(c);
    var start, len := c.nodes[n].start, c.nodes[n].len;
    var kids := Span(c, start, len);
    var i := FromSequenceFirst(kids, a, bit);
    forall j | 0 <= j < i ensures EverVanishes(c, Child(c, start, len, j)) {
      assert a.nullable[kids[j]];
    }
    var before := AllVanish(c, start, len, i);
    var own: nat :| Leads(c, Child(c, start, len, i), bit, own);
    var steps := if before < own then own else before;
    forall j | 0 <= j < i ensures Vanishes(c, Child(c, start, len, j), steps) {
      VanishesMore(c, Child(c, start, len, j), before, steps);
    }
    LeadsMore(c, Child(c, start, len, i), bit, own, steps);
    assert LeadsAt(c, start, len, i, bit, steps);
    SequenceSteps(c, n, i, bit, steps);
  }

  lemma SequenceSteps(c: Code, n: nat, i: nat, bit: nat, steps: nat)
    requires CodeOk(c) && n < |c.nodes| && c.nodes[n].Sequence? && i < c.nodes[n].len
    requires LeadsAt(c, c.nodes[n].start, c.nodes[n].len, i, bit, steps)
    ensures EverLeads(c, n, bit)
  {
    assert Leads(c, n, bit, steps + 1);
  }

  lemma DerivedClosed(c: Code)
    requires Settled(c) && CodeOk(c)
    ensures Closed(c, Derived(c))
  {
    hide Derived, Equation;
    var a := Derived(c);
    forall n | 0 <= n < |c.nodes| ensures Below(Equation(c, c.nodes[n], a), (a.nullable[n], a.first[n])) {
      if Equation(c, c.nodes[n], a).0 {
        DerivedVanishes(c, n);
      }
      EquationBits(c, c.nodes[n], a);
      forall b | b in Equation(c, c.nodes[n], a).1 ensures b in a.first[n] {
        DerivedLeads(c, n, b);
      }
    }
  }

  /** The least solution is exact: a node is nullable exactly when some steps down find that it can match
      nothing, and has a bit exactly when some steps down lead to a terminal that a token with that bit can
      begin.  */
  lemma LeastIsDerived(c: Code, a: Answer, n: nat, bit: nat)
    requires Settled(c) && Solution(c, a) && Least(c, a) && n < |c.nodes|
    ensures a.nullable[n] <==> EverVanishes(c, n)
    ensures bit in a.first[n] <==> EverLeads(c, n, bit)
  {
    hide Leads, Vanishes, Derived, Equation;
    DerivedClosed(c);
    SolutionClosed(c, a);
    assert AnswerBelow(a, Derived(c));
    if steps: nat :| Vanishes(c, n, steps) {
      VanishesBelow(c, a, n, steps);
    }
    if steps: nat :| Leads(c, n, bit, steps) {
      LeadsBelow(c, a, n, bit, steps);
    }
  }

  lemma SolutionClosed(c: Code, a: Answer)
    requires Solution(c, a)
    ensures Closed(c, a)
  {
    hide Equation;
  }
}
