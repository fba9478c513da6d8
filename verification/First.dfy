/** Nullability and FIRST: the equations, the in-place solver, and the least solution it returns.  */
module First {
  import opened RuleTable
  import opened Sets

  /** A candidate assignment of nullability and FIRST to every node.  */
  datatype Answer = Answer(nullable: seq<bool>, first: seq<set<nat>>)

  ghost predicate Fits(c: Code, a: Answer) {
    |a.nullable| == |c.nodes| && |a.first| == |c.nodes|
  }

  predicate Within(kids: seq<nat>, size: nat) {
    forall i :: 0 <= i < |kids| ==> kids[i] < size
  }

  ghost predicate AllNullable(kids: seq<nat>, a: Answer)
    requires Within(kids, |a.nullable|)
  {
    forall i :: 0 <= i < |kids| ==> a.nullable[kids[i]]
  }

  /** FIRST of a sequence: its children up to and including the first that is not nullable.  */
  ghost function SequenceFirst(kids: seq<nat>, a: Answer): (bits: set<nat>)
    requires Within(kids, |a.nullable|) && |a.first| == |a.nullable|
  {
    if kids == [] then {}
    else a.first[kids[0]] + (if a.nullable[kids[0]] then SequenceFirst(kids[1..], a) else {})
  }

  ghost predicate AnyNullable(kids: seq<nat>, a: Answer)
    requires Within(kids, |a.nullable|)
  {
    exists i :: 0 <= i < |kids| && a.nullable[kids[i]]
  }

  ghost function ChoiceFirst(kids: seq<nat>, a: Answer): (bits: set<nat>)
    requires Within(kids, |a.first|)
  {
    set i, b | 0 <= i < |kids| && b in a.first[kids[i]] :: b
  }

  /** What one node's two values have to be, given everybody else's.  */
  ghost function Equation(c: Code, node: Node, a: Answer): (r: (bool, set<nat>))
    requires CodeOk(c) && NodeOk(c, node) && Fits(c, a)
  {
    match node
    case Rule(id) => (a.nullable[c.rules[id].root], a.first[c.rules[id].root])
    case Sequence(start, len) =>
      var kids := Span(c, start, len);
      (AllNullable(kids, a), SequenceFirst(kids, a))
    case Choice(start, len) =>
      var kids := Span(c, start, len);
      (AnyNullable(kids, a), ChoiceFirst(kids, a))
    case Optional(child) => (true, a.first[child])
    case Repeat(child) => (a.nullable[child], a.first[child])
    case _ => (false, TerminalFirst(c, node))
  }

  // ---------------------------------------------------------------------------------------------
  // The order on answers

  ghost predicate Below(p: (bool, set<nat>), q: (bool, set<nat>)) {
    (p.0 ==> q.0) && p.1 <= q.1
  }

  ghost predicate AnswerBelow(a: Answer, b: Answer)
    requires |a.first| == |a.nullable| == |b.first| == |b.nullable|
  {
    forall i :: 0 <= i < |a.nullable| ==> (a.nullable[i] ==> b.nullable[i]) && a.first[i] <= b.first[i]
  }

  /** Every node's equation is met.  */
  ghost predicate Solution(c: Code, a: Answer) {
    CodeOk(c) && Fits(c, a) &&
    forall i :: 0 <= i < |c.nodes| ==> Equation(c, c.nodes[i], a) == (a.nullable[i], a.first[i])
  }

  /** Every node's value is at least what its equation asks for.  Every solution is closed.  */
  ghost predicate Closed(c: Code, a: Answer) {
    CodeOk(c) && Fits(c, a) &&
    forall i :: 0 <= i < |c.nodes| ==> Below(Equation(c, c.nodes[i], a), (a.nullable[i], a.first[i]))
  }

  /** Every node's value is at most what its equation asks for.  */
  ghost predicate Growing(c: Code, a: Answer) {
    CodeOk(c) && Fits(c, a) &&
    forall i :: 0 <= i < |c.nodes| ==> Below((a.nullable[i], a.first[i]), Equation(c, c.nodes[i], a))
  }

  lemma {:induction false} SequenceFirstMonotone(kids: seq<nat>, a: Answer, b: Answer)
    requires |a.first| == |a.nullable| == |b.first| == |b.nullable|
    requires Within(kids, |a.nullable|) && AnswerBelow(a, b)
    ensures SequenceFirst(kids, a) <= SequenceFirst(kids, b)
  {
    if kids != [] {
      SequenceFirstMonotone(kids[1..], a, b);
    }
  }

  lemma EquationMonotone(c: Code, node: Node, a: Answer, b: Answer)
    requires CodeOk(c) && NodeOk(c, node) && Fits(c, a) && Fits(c, b) && AnswerBelow(a, b)
    ensures Below(Equation(c, node, a), Equation(c, node, b))
  {
    match node
    case Sequence(start, len) => SequenceFirstMonotone(Span(c, start, len), a, b);
    case Choice(start, len) =>
      var kids := Span(c, start, len);
      assert ChoiceFirst(kids, a) <= ChoiceFirst(kids, b);
    case _ =>
  }

  lemma {:induction false} EquationBits(c: Code, node: Node, a: Answer)
    requires CodeOk(c) && NodeOk(c, node) && Fits(c, a)
    requires forall i :: 0 <= i < |a.first| ==> a.first[i] <= AllBits
    ensures Equation(c, node, a).1 <= AllBits
  {
    match node
    case Sequence(start, len) => SequenceBits(Span(c, start, len), a);
    case _ =>
  }

  lemma {:induction false} SequenceBits(kids: seq<nat>, a: Answer)
    requires Within(kids, |a.nullable|) && |a.first| == |a.nullable|
    requires forall i :: 0 <= i < |a.first| ==> a.first[i] <= AllBits
    ensures SequenceFirst(kids, a) <= AllBits
  {
    if kids != [] {
      SequenceBits(kids[1..], a);
    }
  }

  // ---------------------------------------------------------------------------------------------
  // Weight: the number of bits set anywhere, which bounds the passes

  ghost function Weight(a: Answer): (w: nat)
    requires |a.first| == |a.nullable|
    decreases |a.first|
  {
    if a.first == [] then 0
    else (if a.nullable[0] then 1 else 0) + |a.first[0]| + Weight(Answer(a.nullable[1..], a.first[1..]))
  }

  ghost function UpTo(n: nat): (bits: set<nat>)
    ensures |bits| == n && forall b: nat :: b in bits <==> b < n
  {
    if n == 0 then {} else UpTo(n - 1) + {n - 1}
  }

  lemma {:induction false} WeightBounded(a: Answer)
    requires |a.first| == |a.nullable|
    requires forall i :: 0 <= i < |a.first| ==> a.first[i] <= AllBits
    ensures Weight(a) <= 65 * |a.first|
    decreases |a.first|
  {
    if a.first != [] {
      SubsetSmaller(a.first[0], UpTo(64));
      WeightBounded(Answer(a.nullable[1..], a.first[1..]));
    }
  }

  /** Replacing one value by a larger one makes the whole answer heavier.  */
  lemma {:induction false} WeightGrows(a: Answer, i: nat, n: bool, f: set<nat>)
    requires |a.first| == |a.nullable| && i < |a.first|
    requires Below((a.nullable[i], a.first[i]), (n, f))
    requires (a.nullable[i], a.first[i]) != (n, f)
    ensures Weight(Answer(a.nullable[i := n], a.first[i := f])) > Weight(a)
    decreases |a.first|
  {
    var b := Answer(a.nullable[i := n], a.first[i := f]);
    var tail := Answer(a.nullable[1..], a.first[1..]);
    if i == 0 {
      assert Answer(b.nullable[1..], b.first[1..]) == tail;
      SubsetSmaller(a.first[0], f);
    } else {
      assert Answer(b.nullable[1..], b.first[1..])
          == Answer(tail.nullable[i - 1 := n], tail.first[i - 1 := f]);
      WeightGrows(tail, i - 1, n, f);
    }
  }

  // ---------------------------------------------------------------------------------------------
  // One assignment of the in-place loop

  /** The loop assigns rather than ORs, and still only ever grows a value: if every value is at most
      its equation, recomputing one leaves every value at most its equation.  */
  lemma AssignKeepsGrowing(c: Code, a: Answer, i: nat)
    requires Growing(c, a) && i < |c.nodes|
    ensures var (n, f) := Equation(c, c.nodes[i], a);
            var b := Answer(a.nullable[i := n], a.first[i := f]);
            Growing(c, b) && AnswerBelow(a, b)
  {
    var (n, f) := Equation(c, c.nodes[i], a);
    var b := Answer(a.nullable[i := n], a.first[i := f]);
    assert AnswerBelow(a, b);
    forall j | 0 <= j < |c.nodes|
      ensures Below((b.nullable[j], b.first[j]), Equation(c, c.nodes[j], b))
    {
      EquationMonotone(c, c.nodes[j], a, b);
    }
  }

  /** ... and it stays below every closed answer.  */
  lemma AssignStaysBelow(c: Code, a: Answer, i: nat, top: Answer)
    requires CodeOk(c) && Fits(c, a) && i < |c.nodes| && Closed(c, top) && AnswerBelow(a, top)
    ensures var (n, f) := Equation(c, c.nodes[i], a);
            AnswerBelow(Answer(a.nullable[i := n], a.first[i := f]), top)
  {
    EquationMonotone(c, c.nodes[i], a, top);
  }

  /** Below every closed answer, so below every solution.  */
  ghost predicate Least(c: Code, a: Answer)
    requires Fits(c, a)
  {
    forall top: Answer :: Closed(c, top) ==> AnswerBelow(a, top)
  }

  // ---------------------------------------------------------------------------------------------
  // The solver

  /** The FIRST bits a keyword class stands for: a bit is in when some word of the class hashes to it.  */
  method ClassMasks(keywords: seq<Word>) returns (masks: seq<set<nat>>)
    ensures |masks| == CLASSES
    ensures forall k :: 0 <= k < CLASSES ==> masks[k] == ClassBuckets(keywords, k)
  {
    masks := seq(CLASSES, _ => {});
    for index := 0 to |keywords|
      invariant |masks| == CLASSES
      invariant forall k :: 0 <= k < CLASSES ==> masks[k] == ClassBuckets(keywords[..index], k)
    {
      ghost var before := masks;
      for bit := 0 to CLASSES
        invariant |masks| == CLASSES
        invariant forall k :: bit <= k < CLASSES ==> masks[k] == before[k]
        invariant forall k :: 0 <= k < bit ==> masks[k] == ClassBuckets(keywords[..index + 1], k)
      {
        BucketsExtend(keywords, index, bit);
        if bit in keywords[index].classes {
          masks := masks[bit := masks[bit] + {Bucket(index)}];
        }
      }
    }
    assert keywords[..|keywords|] == keywords;
  }

  lemma BucketsExtend(keywords: seq<Word>, index: nat, k: nat)
    requires index < |keywords|
    ensures ClassBuckets(keywords[..index + 1], k)
         == ClassBuckets(keywords[..index], k)
            + (if k in keywords[index].classes then {Bucket(index)} else {})
  {
    var longer, shorter := keywords[..index + 1], keywords[..index];
    assert forall i :: 0 <= i < index ==> longer[i] == shorter[i];
    forall b | b in ClassBuckets(longer, k)
      ensures b in ClassBuckets(shorter, k) || (k in keywords[index].classes && b == Bucket(index))
    {
      var i: nat :| i < |longer| && k in longer[i].classes && b == Bucket(i);
      if i < index {
        assert k in shorter[i].classes;
      }
    }
    forall b | b in ClassBuckets(shorter, k) ensures b in ClassBuckets(longer, k) {
      var i: nat :| i < |shorter| && k in shorter[i].classes && b == Bucket(i);
      assert k in longer[i].classes;
    }
    if k in keywords[index].classes {
      assert k in longer[index].classes;
    }
  }

  ghost predicate MasksOk(c: Code, masks: seq<set<nat>>) {
    |masks| == CLASSES && forall k :: 0 <= k < CLASSES ==> masks[k] == ClassBuckets(c.keywords, k)
  }

  /** The union of the masks of the classes in a class node.  */
  method ClassFirst(c: Code, mask: set<nat>, masks: seq<set<nat>>) returns (bits: set<nat>)
    requires MasksOk(c, masks)
    ensures bits == TerminalFirst(c, KeywordClass(mask))
  {
    bits := {};
    for k := 0 to CLASSES
      invariant bits == set j: nat, b | j < k && j in mask && b in ClassBuckets(c.keywords, j) :: b
    {
      if k in mask {
        bits := bits + masks[k];
      }
    }
  }

  /** The child loop of a sequence, which stops after the first child that is not nullable.  */
  method EvaluateSequence(span: seq<nat>, nullable: array<bool>, first: array<set<nat>>)
    returns (allNullable: bool, bits: set<nat>)
    requires nullable.Length == first.Length && Within(span, nullable.Length)
    ensures allNullable == AllNullable(span, Answer(nullable[..], first[..]))
    ensures bits == SequenceFirst(span, Answer(nullable[..], first[..]))
  {
    ghost var a := Answer(nullable[..], first[..]);
    allNullable, bits := true, {};
    var at := 0;
    while at < |span|
      invariant 0 <= at <= |span|
      invariant allNullable && forall i :: 0 <= i < at ==> a.nullable[span[i]]
      invariant SequenceFirst(span, a) == bits + SequenceFirst(span[at..], a)
    {
      var child := span[at];
      assert span[at..][0] == child && span[at..][1..] == span[at + 1..];
      bits := bits + first[child];
      if !nullable[child] {
        allNullable := false;
        break;
      }
      at := at + 1;
    }
  }

  /** The child loop of a choice.  */
  method EvaluateChoice(span: seq<nat>, nullable: array<bool>, first: array<set<nat>>)
    returns (anyNullable: bool, bits: set<nat>)
    requires nullable.Length == first.Length && Within(span, nullable.Length)
    ensures anyNullable == AnyNullable(span, Answer(nullable[..], first[..]))
    ensures bits == ChoiceFirst(span, Answer(nullable[..], first[..]))
  {
    anyNullable, bits := false, {};
    for at := 0 to |span|
      invariant anyNullable <==> exists i :: 0 <= i < at && nullable[span[i]]
      invariant bits == set i, b | 0 <= i < at && b in first[span[i]] :: b
    {
      bits := bits + first[span[at]];
      anyNullable := anyNullable || nullable[span[at]];
    }
  }

  /** The two values of one node from the arrays as they stand.  */
  method Evaluate(c: Code, node: Node, nullable: array<bool>, first: array<set<nat>>,
                  masks: seq<set<nat>>)
    returns (isNullable: bool, bits: set<nat>)
    requires CodeOk(c) && NodeOk(c, node)
    requires nullable.Length == first.Length == |c.nodes|
    requires MasksOk(c, masks)
    ensures (isNullable, bits) == Equation(c, node, Answer(nullable[..], first[..]))
  {
    match node {
      case Rule(id) =>
        var root := c.rules[id].root;
        isNullable, bits := nullable[root], first[root];
      case Sequence(start, len) =>
        isNullable, bits := EvaluateSequence(Span(c, start, len), nullable, first);
      case Choice(start, len) =>
        isNullable, bits := EvaluateChoice(Span(c, start, len), nullable, first);
      case Optional(child) => isNullable, bits := true, first[child];
      case Repeat(child) => isNullable, bits := nullable[child], first[child];
      case KeywordClass(mask) =>
        isNullable := false;
        bits := ClassFirst(c, mask, masks);
      case _ => isNullable, bits := false, TerminalFirst(c, node);
    }
  }

  /** What holds of the arrays at every point of the loop.  */
  ghost predicate Partial(c: Code, a: Answer) {
    Growing(c, a) && Least(c, a) && forall i :: 0 <= i < |a.first| ==> a.first[i] <= AllBits
  }

  lemma AssignKeepsPartial(c: Code, a: Answer, i: nat, n: bool, f: set<nat>)
    requires Partial(c, a) && i < |c.nodes| && (n, f) == Equation(c, c.nodes[i], a)
    requires (n, f) != (a.nullable[i], a.first[i])
    ensures Partial(c, Answer(a.nullable[i := n], a.first[i := f]))
    ensures AnswerBelow(a, Answer(a.nullable[i := n], a.first[i := f]))
    ensures Weight(Answer(a.nullable[i := n], a.first[i := f])) > Weight(a)
  {
    AssignKeepsGrowing(c, a, i);
    WeightGrows(a, i, n, f);
    EquationBits(c, c.nodes[i], a);
    forall top: Answer | Closed(c, top)
      ensures AnswerBelow(Answer(a.nullable[i := n], a.first[i := f]), top)
    {
      AssignStaysBelow(c, a, i, top);
    }
  }

  /** One pass over every node, in place.  A pass never lowers a value; one that changes nothing has
      found a solution.  */
  method Pass(c: Code, nullable: array<bool>, first: array<set<nat>>, masks: seq<set<nat>>)
    returns (changed: bool)
    requires nullable.Length == first.Length == |c.nodes|
    requires Partial(c, Answer(nullable[..], first[..])) && MasksOk(c, masks)
    modifies nullable, first
    ensures Partial(c, Answer(nullable[..], first[..]))
    ensures AnswerBelow(old(Answer(nullable[..], first[..])), Answer(nullable[..], first[..]))
    ensures if changed then Weight(Answer(nullable[..], first[..])) > old(Weight(Answer(nullable[..], first[..])))
            else Answer(nullable[..], first[..]) == old(Answer(nullable[..], first[..]))
                 && Solution(c, Answer(nullable[..], first[..]))
  {
    hide Equation, Weight, Least;
    changed := false;
    ghost var start := Answer(nullable[..], first[..]);
    for index := 0 to |c.nodes|
      invariant Partial(c, Answer(nullable[..], first[..]))
      invariant AnswerBelow(start, Answer(nullable[..], first[..]))
      invariant changed ==> Weight(Answer(nullable[..], first[..])) > Weight(start)
      invariant !changed ==> Answer(nullable[..], first[..]) == start
      invariant !changed ==> forall i :: 0 <= i < index ==>
                  Equation(c, c.nodes[i], start) == (start.nullable[i], start.first[i])
    {
      ghost var before := Answer(nullable[..], first[..]);
      var isNullable, bits := Evaluate(c, c.nodes[index], nullable, first, masks);
      if nullable[index] != isNullable || first[index] != bits {
        AssignKeepsPartial(c, before, index, isNullable, bits);
        nullable[index] := isNullable;
        first[index] := bits;
        assert Answer(nullable[..], first[..])
            == Answer(before.nullable[index := isNullable], before.first[index := bits]);
        changed := true;
      }
    }
  }

  /** Passes over the nodes until one changes nothing.  What is left is the least solution of the
      equations, and at most `65 * |nodes|` passes change anything.  */
  method Solve(c: Code, masks: seq<set<nat>>)
    returns (nullable: seq<bool>, first: seq<set<nat>>, passes: nat)
    requires CodeOk(c) && MasksOk(c, masks)
    ensures Solution(c, Answer(nullable, first)) && Least(c, Answer(nullable, first))
    ensures passes <= 65 * |c.nodes|
  {
    var nulls := new bool[|c.nodes|](_ => false);
    var firsts := new set<nat>[|c.nodes|](_ => {});
    passes := 0;
    var changed := true;
    WeightBounded(Answer(nulls[..], firsts[..]));
    while changed
      invariant Partial(c, Answer(nulls[..], firsts[..]))
      invariant passes <= Weight(Answer(nulls[..], firsts[..])) <= 65 * |c.nodes|
      invariant !changed ==> Solution(c, Answer(nulls[..], firsts[..]))
      decreases 65 * |c.nodes| - Weight(Answer(nulls[..], firsts[..])), changed
    {
      changed := Pass(c, nulls, firsts, masks);
      WeightBounded(Answer(nulls[..], firsts[..]));
      if changed {
        passes := passes + 1;
      }
    }
    nullable, first := nulls[..], firsts[..];
  }
}
