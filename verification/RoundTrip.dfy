/** Rules written out in any layout read back as themselves, and every file that reads can be written out again.  */
module RoundTrip {
  import RuleTable
  import opened Syntax
  import opened Reading
  import opened Rendering

  // ---------------------------------------------------------------------------------------------
  // Written text never looks like the head of a rule

  lemma NoName(s: string)
    requires s != [] && !NameChar(s[0]) && s[0] != '%'
    ensures NameLength(s) == 0
  {}

  /** Space does not move past a mark.  */
  lemma SpaceStays(s: string)
    requires s != [] && !White(s[0]) && s[0] != '#'
    ensures Space(s) == s
  {}

  /** What comes after the first of several elements: something that separates, then the next element.  */
  lemma RowNext(items: seq<Layout>, gaps: seq<Gap>, tail: string)
    requires Valid(Row(items, gaps))
    ensures var after := G(gaps[0], RowTo(items[1..], gaps[1..], tail));
            && W(Row(items, gaps), tail) == W(items[0], after)
            && Apart(after) && after != [] && !NameChar(after[0])
            && !Starts(Space(after), ')') && !Arrow(Space(after))
            && Space(after) == RowTo(items[1..], gaps[1..], tail) && Opens(Space(after))
  {
    hide Space;
    var next := RowTo(items[1..], gaps[1..], tail);
    var after := G(gaps[0], next);
    GapFront(gaps[0], next);
    GapSkipped(gaps[0], next);
    RowOpens(items[1..], gaps[1..], tail);
    OpensStays(next);
  }

  lemma RowOpens(items: seq<Layout>, gaps: seq<Gap>, tail: string)
    requires items != [] && Valid(items[0])
    ensures Opens(RowTo(items, gaps, tail))
  {
    if |items| == 1 || gaps == [] {
      WOpens(items[0], tail);
    } else {
      WOpens(items[0], G(gaps[0], RowTo(items[1..], gaps[1..], tail)));
    }
  }

  /** The same for the branches of a choice.  */
  lemma RestNext(items: seq<Layout>, before: seq<Gap>, after: seq<Gap>, tail: string)
    requires items != [] && before != [] && after != [] && GapOk(before[0])
    ensures var rest := Rest(items, before, after, tail);
            && Apart(rest) && rest != [] && !NameChar(rest[0])
            && Space(rest) == "/" + G(after[0], W(items[0], Rest(items[1..], before[1..], after[1..], tail)))
  {
    hide Space;
    var slash := "/" + G(after[0], W(items[0], Rest(items[1..], before[1..], after[1..], tail)));
    SpaceStays(slash);
    GapSkipped(before[0], slash);
    if before[0] != [] {
      GapFront(before[0], slash);
    }
  }

  /** A name at the front of a layout is followed by more than a closing parenthesis, if it is not all of it.  */
  lemma {:induction false} WNotLone(l: Layout, tail: string)
    requires Valid(l)
    requires l.Name? ==> (tail == [] || !NameChar(tail[0])) && !Starts(Space(tail), ')')
    ensures NotLone(W(l, tail))
    decreases l
  {
    hide Space, NameLength;
    var s := W(l, tail);
    match l
    case Name(name) => NameStops(name, tail);
    case Apply(name, left, inner, right) =>
      var more := "(" + G(left, W(inner, G(right, ")" + tail)));
      NameStops(name, more);
      SpaceStays(more);
    case Marked(inner, mark) =>
      SpaceStays([mark] + tail);
      WNotLone(inner, [mark] + tail);
    case Row(items, gaps) =>
      RowNext(items, gaps, tail);
      WNotLone(items[0], G(gaps[0], RowTo(items[1..], gaps[1..], tail)));
    case Alts(items, before, after) =>
      RestNext(items[1..], before, after, tail);
      WNotLone(items[0], Rest(items[1..], before, after, tail));
    case _ => NoName(s);
  }

  /** Nothing that precedes a layout becomes a rule head because of it, unless an arrow comes after.  */
  lemma {:induction false} WNotHead(l: Layout, tail: string)
    requires Valid(l) && !Arrow(Space(tail))
    ensures !Heads(W(l, tail))
    decreases l
  {
    hide Heads, Space, NameLength;
    match l
    case Group(left, inner, right) => GroupNotHead(left, inner, right, tail);
    case Marked(inner, mark) =>
      SpaceStays([mark] + tail);
      WNotHead(inner, [mark] + tail);
    case Row(items, gaps) =>
      RowNext(items, gaps, tail);
      WNotHead(items[0], G(gaps[0], RowTo(items[1..], gaps[1..], tail)));
    case Alts(items, before, after) =>
      RestNext(items[1..], before, after, tail);
      WNotHead(items[0], Rest(items[1..], before, after, tail));
    case _ =>
      WOpens(l, tail);
      FrontIsPlain(l, tail);
      OpensNotHead(W(l, tail));
  }

  lemma FrontIsPlain(l: Layout, tail: string)
    requires Valid(l) && (Level(l) == 4 || Level(l) == 2) && !l.Group?
    ensures W(l, tail) != [] && W(l, tail)[0] != '('
  {
    if l.Name? || l.Apply? {
      NameStops(l.name, []);
    }
  }

  lemma OpensNotHead(s: string)
    requires Opens(s) && s[0] != '('
    ensures !Heads(s)
  {
    OpensStays(s);
  }

  /** A written group is not the parameter of a rule.  */
  lemma GroupNotHead(left: Gap, inner: Layout, right: Gap, tail: string)
    requires Valid(Group(left, inner, right)) && !Arrow(Space(tail))
    ensures !Heads(W(Group(left, inner, right), tail))
  {
    hide Space, NameLength;
    var close := ")" + tail;
    var after := G(right, close);
    var more := W(inner, after);
    var s := W(Group(left, inner, right), tail);
    SpaceStays(s);
    assert s[1..] == G(left, more);
    GapSkipped(left, more);
    WOpens(inner, after);
    OpensStays(more);
    GapSkipped(right, close);
    SpaceStays(close);
    assert close[1..] == tail;
    if inner.Name? {
      if right != [] {
        GapFront(right, close);
      }
      NameStops(inner.name, after);
    } else {
      WNotLone(inner, after);
    }
  }

  /** An element followed by something that is no rule head does not start a rule.  */
  lemma {:induction false} WNotRule(l: Layout, tail: string)
    requires Valid(l) && Level(l) >= 2 && Touching(tail) && !Heads(tail)
    ensures !AtRuleStart(W(l, tail))
    decreases l
  {
    hide Space, NameLength, Heads;
    match l
    case Name(name) => NameStops(name, tail);
    case Apply(name, left, inner, right) =>
      NotHeadNotArrow(tail);
      GroupNotHead(left, inner, right, tail);
      NameStops(name, W(Group(left, inner, right), tail));
    case Marked(inner, mark) =>
      MarkNotHead(mark, tail);
      WNotRule(inner, [mark] + tail);
    case _ => NoName(W(l, tail));
  }

  lemma NotHeadNotArrow(s: string)
    requires !Heads(s)
    ensures !Arrow(Space(s))
  {}

  lemma MarkNotHead(mark: char, tail: string)
    requires mark == '?' || mark == '+' || mark == '*'
    ensures !Heads([mark] + tail)
  {
    SpaceStays([mark] + tail);
  }

  // ---------------------------------------------------------------------------------------------
  // Reading back

  lemma {:induction false} SpaceTwice(s: string)
    ensures Space(Space(s)) == Space(s)
  {}

  /** Leading space does not matter to a sequence or to the branches after one.  */
  lemma SpaceFirst(s: string, t: string)
    requires Space(s) == Space(t)
    ensures Items(s) == Items(t) && Sequences(s) == Sequences(t) && Branches(s) == Branches(t) && Choices(s) == Choices(t)
  {}

  lemma {:induction false} PrimaryReads(l: Layout, rest: string)
    requires Valid(l) && Level(l) == 4 && Touching(rest)
    ensures Primary(W(l, rest)) == Done(Erase(l), rest)
    decreases l, 1
  {
    hide Space, Primary, Enclosed, Choices, Heads;
    match l
    case Group(left, inner, right) =>
      ClosingFollows(right, ')', rest);
      ChoicesRead(inner, G(right, ")" + rest));
      EnclosedReads(left, inner, right, ')', rest);
      GroupReads(left, inner, right, rest);
    case Captured(left, inner, right) =>
      ClosingFollows(right, '>', rest);
      ChoicesRead(inner, G(right, ">" + rest));
      EnclosedReads(left, inner, right, '>', rest);
      CapturedReads(left, inner, right, rest);
    case Apply(name, left, inner, right) =>
      ClosingFollows(right, ')', rest);
      ChoicesRead(inner, G(right, ")" + rest));
      EnclosedReads(left, inner, right, ')', rest);
      ApplyReads(name, left, inner, right, rest);
    case _ => LeafReads(l, rest);
  }

  lemma LeafReads(l: Layout, rest: string)
    requires Valid(l) && Touching(rest) && (l.Lit? || l.Class? || l.Name?)
    ensures Primary(W(l, rest)) == Done(Erase(l), rest)
  {
    hide NameLength, Enclosed, Text, ClassText;
    var s := W(l, rest);
    match l
    case Lit(chars) =>
      assert s[1..] == Chars(chars, "'" + rest);
      CharsRead(chars, rest);
    case Class(text) => ClassStops(text, rest);
    case Name(name) => NameStops(name, rest);
  }

  /** What a bracketed choice is followed by.  */
  lemma ClosingFollows(right: Gap, close: char, rest: string)
    requires GapOk(right) && (close == ')' || close == '>')
    ensures var after := G(right, [close] + rest);
            Follows(after) && Ends(Space(after)) && Space(after) == [close] + rest
  {
    var shut := [close] + rest;
    SpaceStays(shut);
    GapSkipped(right, shut);
    if right != [] {
      GapFront(right, shut);
    }
  }

  lemma EnclosedReads(left: Gap, inner: Layout, right: Gap, close: char, rest: string)
    requires GapOk(left)
    requires var after := G(right, [close] + rest);
             Space(after) == [close] + rest && Choices(W(inner, after)) == Done(Erase(inner), Space(after))
    ensures Enclosed(G(left, W(inner, G(right, [close] + rest))), close) == Done(Erase(inner), rest)
  {
    hide Space, Choices;
    var after := G(right, [close] + rest);
    GapSkipped(left, W(inner, after));
    SpaceFirst(G(left, W(inner, after)), W(inner, after));
    SpaceTwice(after);
    assert ([close] + rest)[1..] == rest;
  }

  lemma GroupReads(left: Gap, inner: Layout, right: Gap, rest: string)
    requires Enclosed(G(left, W(inner, G(right, ")" + rest))), ')') == Done(Erase(inner), rest)
    ensures Primary(W(Group(left, inner, right), rest)) == Done(Erase(inner), rest)
  {
    hide Enclosed;
    assert W(Group(left, inner, right), rest)[1..] == G(left, W(inner, G(right, ")" + rest)));
  }

  lemma CapturedReads(left: Gap, inner: Layout, right: Gap, rest: string)
    requires Enclosed(G(left, W(inner, G(right, ">" + rest))), '>') == Done(Erase(inner), rest)
    ensures Primary(W(Captured(left, inner, right), rest)) == Done(Capture(Erase(inner)), rest)
  {
    hide Enclosed;
    assert W(Captured(left, inner, right), rest)[1..] == G(left, W(inner, G(right, ">" + rest)));
  }

  lemma ApplyReads(name: string, left: Gap, inner: Layout, right: Gap, rest: string)
    requires IsName(name) && Enclosed(G(left, W(inner, G(right, ")" + rest))), ')') == Done(Erase(inner), rest)
    ensures Primary(W(Apply(name, left, inner, right), rest)) == Done(Call(name, Erase(inner)), rest)
  {
    hide Enclosed, NameLength;
    var inside := G(left, W(inner, G(right, ")" + rest)));
    var s := W(Apply(name, left, inner, right), rest);
    assert s == name + ("(" + inside);
    NameStops(name, "(" + inside);
    assert s[|name| + 1..] == inside;
  }

  lemma {:induction false} SuffixedReads(l: Layout, rest: string)
    requires Valid(l) && Level(l) >= 3 && Apart(rest)
    ensures Suffixed(W(l, rest)) == Done(Erase(l), rest)
    decreases l, 2
  {
    hide Primary;
    if l.Marked? {
      PrimaryReads(l.inner, [l.mark] + rest);
      assert ([l.mark] + rest)[1..] == rest;
    } else {
      PrimaryReads(l, rest);
    }
  }

  lemma {:induction false} PrefixedReads(l: Layout, rest: string)
    requires Valid(l) && Level(l) >= 2 && Apart(rest)
    ensures Prefixed(W(l, rest)) == Done(Erase(l), rest)
    decreases l, 3
  {
    hide Suffixed, Space;
    if l.Bang? {
      var inside := W(l.inner, rest);
      assert W(l, rest)[1..] == G(l.gap, inside);
      GapSkipped(l.gap, inside);
      WOpens(l.inner, rest);
      OpensStays(inside);
      SuffixedReads(l.inner, rest);
    } else {
      WOpens(l, rest);
      SuffixedReads(l, rest);
    }
  }

  /** An element that reads and a tail that reads are a list that reads.  */
  lemma ItemsRead(l: Layout, tail: string, more: seq<Expr>, end: string)
    requires Valid(l) && Level(l) >= 2 && Follows(tail) && Prefixed(W(l, tail)) == Done(Erase(l), tail)
    requires Items(tail) == Done(more, end)
    ensures Items(W(l, tail)) == Done([Erase(l)] + more, end)
  {
    hide Space, Prefixed, AtRuleStart, Heads;
    WOpens(l, tail);
    OpensStays(W(l, tail));
    WNotRule(l, tail);
  }

  /** What comes after one element of a sequence is no rule head.  */
  lemma RowNotHead(items: seq<Layout>, gaps: seq<Gap>, tail: string)
    requires items != [] && |gaps| == |items| - 1 && !Arrow(Space(tail))
    requires forall i :: 0 <= i < |items| ==> Valid(items[i]) && Level(items[i]) >= 2
    requires forall i :: 0 <= i < |gaps| ==> GapOk(gaps[i]) && gaps[i] != []
    ensures !Heads(RowTo(items, gaps, tail))
  {
    hide Heads, Space;
    if |items| == 1 {
      WNotHead(items[0], tail);
    } else {
      WNotHead(Row(items, gaps), tail);
    }
  }

  /** A whole written sequence.  */
  lemma {:induction false} RowReads(items: seq<Layout>, gaps: seq<Gap>, rest: string)
    requires items != [] && |gaps| == |items| - 1
    requires forall i :: 0 <= i < |items| ==> Valid(items[i]) && Level(items[i]) >= 2
    requires forall i :: 0 <= i < |gaps| ==> GapOk(gaps[i]) && gaps[i] != []
    requires Follows(rest) && Stops(Space(rest))
    ensures Items(RowTo(items, gaps, rest)) == Done(EraseAll(items), Space(rest))
    decreases items, 0
  {
    hide Space, Prefixed, AtRuleStart, Heads;
    if |items| == 1 {
      PrefixedReads(items[0], rest);
      ItemsRead(items[0], rest, [], Space(rest));
      assert EraseAll(items) == [Erase(items[0])] + [];
    } else {
      var next := RowTo(items[1..], gaps[1..], rest);
      var tail := G(gaps[0], next);
      RowNext(items, gaps, rest);
      NotHeadNotArrow(rest);
      RowNotHead(items[1..], gaps[1..], rest);
      HeadsAfterSpace(tail, next);
      RowReads(items[1..], gaps[1..], rest);
      SpaceFirst(tail, next);
      PrefixedReads(items[0], tail);
      ItemsRead(items[0], tail, EraseAll(items[1..]), Space(rest));
    }
  }

  lemma HeadsAfterSpace(s: string, t: string)
    requires Space(s) == Space(t) || Space(s) == t
    ensures Heads(s) == Heads(t) && Space(s) == Space(t)
  {
    SpaceTwice(s);
  }

  lemma {:induction false} SequencesRead(l: Layout, rest: string)
    requires Valid(l) && Level(l) >= 1 && Follows(rest) && Stops(Space(rest))
    ensures Sequences(W(l, rest)) == Done(Erase(l), Space(rest))
    decreases l, 4
  {
    hide Space, Prefixed, AtRuleStart, Heads;
    if l.Row? {
      RowReads(l.items, l.gaps, rest);
    } else {
      PrefixedReads(l, rest);
      ItemsRead(l, rest, [], Space(rest));
      assert [Erase(l)] + [] == [Erase(l)];
    }
  }

  /** A choice ends here.  */
  predicate Ends(s: string) {
    Stops(s) && !Starts(s, '/')
  }

  /** The branches after the first keep apart from what precedes them.  */
  lemma RestFollows(items: seq<Layout>, before: seq<Gap>, after: seq<Gap>, rest: string)
    requires |before| == |after| == |items| && (forall i :: 0 <= i < |before| ==> GapOk(before[i]) && GapOk(after[i]))
    requires Follows(rest) && Ends(Space(rest))
    ensures Follows(Rest(items, before, after, rest)) && Stops(Space(Rest(items, before, after, rest)))
  {
    hide Space, AtRuleStart, NameLength;
    if items != [] {
      RestNext(items, before, after, rest);
    }
  }

  lemma {:induction false} BranchesRead(items: seq<Layout>, before: seq<Gap>, after: seq<Gap>, rest: string)
    requires |before| == |after| == |items| && (forall i :: 0 <= i < |before| ==> GapOk(before[i]) && GapOk(after[i]))
    requires forall i :: 0 <= i < |items| ==> Valid(items[i]) && Level(items[i]) >= 1
    requires Follows(rest) && Ends(Space(rest))
    ensures Branches(Rest(items, before, after, rest)) == Done(EraseAll(items), Space(rest))
    decreases items, 0
  {
    hide Space, Sequences, AtRuleStart, Heads;
    if items != [] {
      var more := Rest(items[1..], before[1..], after[1..], rest);
      var inside := W(items[0], more);
      RestNext(items, before, after, rest);
      RestFollows(items[1..], before[1..], after[1..], rest);
      SequencesRead(items[0], more);
      BranchesRead(items[1..], before[1..], after[1..], rest);
      SpaceTwice(more);
      SpaceFirst(more, Space(more));
      GapSkipped(after[0], inside);
      SpaceFirst(G(after[0], inside), inside);
      assert ("/" + G(after[0], inside))[1..] == G(after[0], inside);
    }
  }

  lemma {:induction false} ChoicesRead(l: Layout, rest: string)
    requires Valid(l) && Follows(rest) && Ends(Space(rest))
    ensures Choices(W(l, rest)) == Done(Erase(l), Space(rest))
    decreases l, 5
  {
    hide Space, Sequences, AtRuleStart, Heads;
    if l.Alts? {
      var more := Rest(l.items[1..], l.before, l.after, rest);
      RestFollows(l.items[1..], l.before, l.after, rest);
      SequencesRead(l.items[0], more);
      BranchesRead(l.items[1..], l.before, l.after, rest);
      SpaceTwice(more);
      SpaceFirst(more, Space(more));
    } else {
      SequencesRead(l, rest);
      SpaceTwice(rest);
      assert [Erase(l)] + [] == [Erase(l)];
    }
  }

  // ---------------------------------------------------------------------------------------------
  // Rules and files

  /** What follows the name of a rule reads as its parameter and its arrow.  */
  lemma HeadReads(r: RuleLayout, tail: string)
    requires RuleOk(r)
    ensures var s := RuleTo(r, tail);
            && NameLength(s) == |r.name| && s[..|r.name|] == r.name && Heads(s[|r.name|..])
            && s != [] && (s[0] == '%' || NameChar(s[0]))
            && Parameter(Space(s[|r.name|..])) == Done(EraseRule(r).parameter, ArrowTo(r, tail))
  {
    hide NameLength, Space, Heads, Parameter;
    var arrow := ArrowTo(r, tail);
    SpaceStays(arrow);
    var more := if r.parameter.Some? then ParamTo(r.parameter.value, arrow) else arrow;
    GapSkipped(r.gap, more);
    if r.gap != [] {
      GapFront(r.gap, more);
    }
    NameStops(r.name, G(r.gap, more));
    if r.parameter.Some? {
      ParamReads(r.parameter.value, arrow);
    } else {
      NoParameter(arrow);
    }
    HeadsAfterSpace(G(r.gap, more), more);
  }

  lemma NoParameter(arrow: string)
    requires Arrow(arrow) && Space(arrow) == arrow
    ensures Heads(arrow) && Parameter(Space(arrow)) == Done(RuleTable.None, arrow)
  {}

  lemma ParamReads(p: Param, arrow: string)
    requires ParamOk(p) && Arrow(arrow) && Space(arrow) == arrow
    ensures var more := ParamTo(p, arrow);
            Space(more) == more && Heads(more) && Parameter(more) == Done(RuleTable.Some(p.name), arrow)
  {
    hide NameLength, Space;
    var close := ")" + G(p.after, arrow);
    var name := p.name + G(p.right, close);
    var more := ParamTo(p, arrow);
    SpaceStays(more);
    assert more[1..] == G(p.left, name);
    GapSkipped(p.left, name);
    SpaceStays(close);
    GapSkipped(p.right, close);
    if p.right != [] {
      GapFront(p.right, close);
    }
    NameStops(p.name, G(p.right, close));
    SpaceStays(name);
    assert close[1..] == G(p.after, arrow);
    GapSkipped(p.after, arrow);
  }

  /** A written rule starts a rule, wherever it is read.  */
  lemma RuleStarts(r: RuleLayout, tail: string)
    requires RuleOk(r)
    ensures AtRuleStart(RuleTo(r, tail)) && Space(RuleTo(r, tail)) == RuleTo(r, tail)
  {
    hide NameLength, Space, Heads;
    HeadReads(r, tail);
    SpaceStays(RuleTo(r, tail));
  }

  lemma RuleReads(r: RuleLayout, rest: string)
    requires RuleOk(r) && Follows(rest) && Ends(Space(rest))
    ensures RuleText(RuleTo(r, rest)) == Done(EraseRule(r), Space(rest))
  {
    hide NameLength, Space, Parameter, Heads, AtRuleStart, Choices;
    var body := W(r.body, rest);
    HeadReads(r, rest);
    assert ArrowTo(r, rest)[2..] == G(r.lead, body);
    GapSkipped(r.lead, body);
    SpaceFirst(G(r.lead, body), body);
    ChoicesRead(r.body, rest);
  }

  /** A body ends where the next rule begins, or at the end of the file.  */
  lemma NextRule(gap: Gap, rules: seq<RuleLayout>, gaps: seq<Gap>)
    requires GapOk(gap) && FileOk(rules, gaps) && (rules != [] ==> gap != [])
    ensures var rest := G(gap, FileTo(rules, gaps));
            Follows(rest) && Ends(Space(rest)) && Space(rest) == FileTo(rules, gaps)
  {
    hide AtRuleStart, Space, RuleTo;
    var text := FileTo(rules, gaps);
    GapSkipped(gap, text);
    if gap != [] {
      GapFront(gap, text);
    }
    if rules == [] {
      assert text == [];
      NothingLeft();
    } else {
      RuleStarts(rules[0], G(gaps[0], FileTo(rules[1..], gaps[1..])));
      StartsPlain(text);
    }
  }

  lemma NothingLeft()
    ensures Space([]) == []
  {}

  lemma StartsPlain(s: string)
    requires AtRuleStart(s)
    ensures s != [] && (s[0] == '%' || NameChar(s[0]))
  {}

  lemma FileSpace(s: string)
    ensures File(Space(s)) == File(s)
  {
    SpaceTwice(s);
  }

  lemma {:induction false} FileReads(rules: seq<RuleLayout>, gaps: seq<Gap>)
    requires FileOk(rules, gaps)
    ensures File(FileTo(rules, gaps)) == Done(EraseRules(rules), [])
  {
    hide RuleTo, RuleText, AtRuleStart, RuleOk, GapOk;
    if rules != [] {
      var more := FileTo(rules[1..], gaps[1..]);
      var rest := G(gaps[0], more);
      assert FileOk(rules[1..], gaps[1..]);
      NextRule(gaps[0], rules[1..], gaps[1..]);
      RuleStarts(rules[0], rest);
      RuleReads(rules[0], rest);
      FileReads(rules[1..], gaps[1..]);
      StartsPlain(RuleTo(rules[0], rest));
    }
  }

  /** Rules in any layout, with any space and comments before, between and after them, read back as the rules that
      are laid out.  */
  lemma ReadsBack(lead: Gap, rules: seq<RuleLayout>, gaps: seq<Gap>)
    requires GapOk(lead) && FileOk(rules, gaps)
    ensures File(G(lead, FileTo(rules, gaps))) == Done(EraseRules(rules), [])
  {
    hide File, Space;
    var text := FileTo(rules, gaps);
    GapSkipped(lead, text);
    FileSpace(text);
    FileSpace(G(lead, text));
    FileReads(rules, gaps);
  }

  // ---------------------------------------------------------------------------------------------
  // A layout for every rule

  const SPACE: Gap := [Piece.Blank(' ')]

  function LevelOf(e: Expr): (level: nat)
    ensures level <= 4
  {
    match e
    case Choice(_) => 0
    case Sequence(_) => 1
    case Not(_) => 2
    case Optional(_) => 3
    case Repeat(_) => 3
    case _ => 4
  }

  /** An expression laid out with single spaces, in parentheses where the parser of `level` needs them.  */
  function Laid(e: Expr, level: nat): Layout
    decreases e, 2
  {
    if LevelOf(e) < level then Group([], Simply(e), []) else Simply(e)
  }

  function Simply(e: Expr): Layout
    decreases e, 1
  {
    match e
    case Choice(items) =>
      var spaces := seq(if |items| == 0 then 0 else |items| - 1, _ => SPACE);
      Alts(LaidAll(items, 1), spaces, spaces)
    case Sequence(items) => Row(LaidAll(items, 2), seq(if |items| == 0 then 0 else |items| - 1, _ => SPACE))
    case Not(inner) => Bang([], Laid(inner, 3))
    case Optional(inner) =>
      (match inner case Repeat(x) => Marked(Laid(x, 4), '*') case _ => Marked(Laid(inner, 4), '?'))
    case Repeat(inner) => Marked(Laid(inner, 4), '+')
    case Literal(text) => Lit(seq(|text|, i requires 0 <= i < |text| => (text[i] == '\'' || text[i] == '\\', text[i])))
    case Reference(name) => Name(name)
    case Call(name, argument) => Apply(name, [], Laid(argument, 0), [])
    case Capture(inner) => Captured(SPACE, Laid(inner, 0), SPACE)
    case CharClass(text) => Class(text)
  }

  function LaidAll(items: seq<Expr>, level: nat): (r: seq<Layout>)
    ensures |r| == |items| && forall i :: 0 <= i < |items| ==> r[i] == Laid(items[i], level)
    decreases items, 0
  {
    if items == [] then [] else [Laid(items[0], level)] + LaidAll(items[1..], level)
  }

  lemma {:induction false} LaidStands(e: Expr, level: nat)
    requires Canonical(e) && level <= 4
    ensures Valid(Laid(e, level)) && Level(Laid(e, level)) >= level && Erase(Laid(e, level)) == e
    decreases e, 2
  {
    hide Canonical, Simply;
    SimplyStands(e);
    SpaceOk();
  }

  /** A layout of its level that stands for `e`.  */
  ghost predicate Stands(l: Layout, e: Expr) {
    Valid(l) && Level(l) == LevelOf(e) && Erase(l) == e
  }

  lemma {:induction false} SimplyStands(e: Expr)
    requires Canonical(e)
    ensures Stands(Simply(e), e)
    decreases e, 1
  {
    hide Laid, EraseAll, GapOk, LaidAll, Valid, Erase;
    match e
    case Choice(items) =>
      AllLaid(items, 1);
      ListStands(LaidAll(items, 1), items, Simply(e).before);
    case Sequence(items) =>
      AllLaid(items, 2);
      ListStands(LaidAll(items, 2), items, Simply(e).gaps);
    case Literal(text) => LiteralStands(text);
    case _ => InnerStands(e);
  }

  lemma {:induction false} LiteralStands(text: string)
    ensures Stands(Simply(Literal(text)), Literal(text))
  {
    assert Plain(Simply(Literal(text)).chars) == text;
  }

  lemma {:induction false} InnerStands(e: Expr)
    requires Canonical(e) && !e.Choice? && !e.Sequence? && !e.Literal?
    ensures Stands(Simply(e), e)
    decreases e, 0
  {
    hide Laid, GapOk;
    SpaceOk();
    match e
    case Not(inner) => LaidStands(inner, 3);
    case Optional(inner) => LaidStands(if inner.Repeat? then inner.inner else inner, 4);
    case Repeat(inner) => LaidStands(inner, 4);
    case Call(_, argument) => LaidStands(argument, 0);
    case Capture(inner) => LaidStands(inner, 0);
    case _ =>
  }

  lemma {:induction false} ListStands(laid: seq<Layout>, items: seq<Expr>, spaces: seq<Gap>)
    requires |laid| == |items| >= 2 && EraseAll(laid) == items
    requires |spaces| == |items| - 1 && forall i :: 0 <= i < |spaces| ==> spaces[i] == SPACE
    requires forall i :: 0 <= i < |laid| ==> Valid(laid[i])
    ensures (forall i :: 0 <= i < |laid| ==> Level(laid[i]) >= 1) ==>
              Valid(Alts(laid, spaces, spaces)) && Erase(Alts(laid, spaces, spaces)) == Choice(items)
    ensures (forall i :: 0 <= i < |laid| ==> Level(laid[i]) >= 2) ==>
              Valid(Row(laid, spaces)) && Erase(Row(laid, spaces)) == Sequence(items)
  {
    hide EraseAll, GapOk;
    SpaceOk();
  }

  lemma SpaceOk()
    ensures GapOk(SPACE) && GapOk([])
  {}

  lemma {:induction false} AllLaid(items: seq<Expr>, level: nat)
    requires level <= 4 && forall i :: 0 <= i < |items| ==> Canonical(items[i])
    ensures EraseAll(LaidAll(items, level)) == items
    ensures forall i :: 0 <= i < |items| ==> Valid(LaidAll(items, level)[i]) && Level(LaidAll(items, level)[i]) >= level
    decreases items
  {
    hide Laid, Valid, Canonical;
    forall i | 0 <= i < |items|
      ensures Valid(Laid(items[i], level)) && Level(Laid(items[i], level)) >= level && Erase(Laid(items[i], level)) == items[i]
    {
      LaidStands(items[i], level);
    }
  }

  function LaidRule(r: Rule): RuleLayout {
    RuleLayout(r.name, if r.parameter.Some? then [] else SPACE,
               match r.parameter case None => RuleTable.None case Some(p) => RuleTable.Some(Param([], p, [], SPACE)),
               SPACE, Laid(r.body, 0))
  }

  function LaidRules(rules: seq<Rule>): (r: seq<RuleLayout>)
    ensures |r| == |rules| && forall i :: 0 <= i < |rules| ==> r[i] == LaidRule(rules[i])
  {
    if rules == [] then [] else [LaidRule(rules[0])] + LaidRules(rules[1..])
  }

  /** The rules of a file, one to a line.  */
  function ShowRules(rules: seq<Rule>): string {
    FileTo(LaidRules(rules), seq(|rules|, _ => [Piece.Blank('\n')]))
  }

  lemma {:induction false} LaidRulesErase(rules: seq<Rule>)
    requires forall i :: 0 <= i < |rules| ==> CanonicalRule(rules[i])
    ensures EraseRules(LaidRules(rules)) == rules
    ensures forall i :: 0 <= i < |rules| ==> RuleOk(LaidRule(rules[i]))
  {
    if rules != [] {
      LaidStands(rules[0].body, 0);
      assert LaidRules(rules)[1..] == LaidRules(rules[1..]);
      LaidRulesErase(rules[1..]);
      assert EraseRule(LaidRule(rules[0])) == rules[0];
      assert forall i :: 0 < i < |rules| ==> rules[i] == rules[1..][i - 1];
    }
  }

  /** So canonical rules, written one to a line, read back as themselves.  */
  lemma ShownReadsBack(rules: seq<Rule>)
    requires forall i :: 0 <= i < |rules| ==> CanonicalRule(rules[i])
    ensures File(ShowRules(rules)) == Done(rules, [])
  {
    hide CanonicalRule, File;
    LaidRulesErase(rules);
    FileReads(LaidRules(rules), seq(|rules|, _ => [Piece.Blank('\n')]));
  }

  // ---------------------------------------------------------------------------------------------
  // What reads is canonical

  lemma {:induction false} NameRunTaken(s: string)
    ensures NameRun(s[..NameRun(s)]) == NameRun(s)
  {
    if s != [] && NameChar(s[0]) {
      NameRunTaken(s[1..]);
      assert s[..NameRun(s)][1..] == s[1..][..NameRun(s[1..])];
    }
  }

  lemma NameTaken(s: string)
    requires NameLength(s) > 0
    ensures IsName(s[..NameLength(s)])
  {
    var n := s[..NameLength(s)];
    NameRunTaken(s);
    if s[0] == '%' {
      NameRunTaken(s[1..]);
      assert n[1..] == s[1..][..NameRun(s[1..])];
    }
  }

  lemma {:induction false} ClassBodyTaken(s: string)
    requires ClassBody(s).Done?
    ensures var t := ClassBody(s).value; t != [] && ClassBody(t) == Done(t, []) && s == t + ClassBody(s).rest
    decreases |s|
  {
    hide ClassBody;
    var t := ClassBody(s).value;
    ClassUnfolds(s);
    ClassUnfolds(t);
    if s[0] == ']' {
      assert t[1..] == [];
    } else {
      var step := if s[0] == '\\' then 2 else 1;
      ClassBodyTaken(s[step..]);
      assert t[step..] == ClassBody(s[step..]).value && t[..step] == s[..step];
      assert s == s[..step] + s[step..];
    }
  }

  lemma ClassTaken(s: string)
    requires Starts(s, '[') && ClassText(s).Done?
    ensures IsClass(ClassText(s).value)
  {
    hide ClassBody;
    var t := ClassText(s).value;
    var body := ClassBody(s[1..]).value;
    ClassBodyTaken(s[1..]);
    if Starts(ClassBody(s[1..]).rest, 'i') {
      ClassBodyStops(body, "i");
      assert t[1..] == body + "i" && [] + "i" == "i" && "i"[1..] == [];
    } else {
      assert t[1..] == body;
    }
  }

  lemma {:induction false} EnclosedCanonical(s: string, close: char)
    ensures Enclosed(s, close).Done? ==> Canonical(Enclosed(s, close).value)
    decreases |s|, 7
  {
    hide Choices, Canonical;
    ChoicesCanonical(s);
  }

  lemma {:induction false} PrimaryCanonical(s: string)
    ensures Primary(s).Done? ==> Canonical(Primary(s).value)
    decreases |s|, 1
  {
    hide Enclosed, ClassText, NameLength, Text;
    if Starts(s, '[') {
      if ClassText(s).Done? {
        ClassTaken(s);
      }
    } else if Starts(s, '(') {
      EnclosedCanonical(s[1..], ')');
    } else if Starts(s, '<') {
      EnclosedCanonical(s[1..], '>');
    } else if NameLength(s) > 0 {
      NameTaken(s);
      if Starts(s[NameLength(s)..], '(') {
        EnclosedCanonical(s[NameLength(s) + 1..], ')');
      }
    }
  }

  lemma {:induction false} SuffixedCanonical(s: string)
    ensures Suffixed(s).Done? ==> Canonical(Suffixed(s).value)
    decreases |s|, 2
  {
    hide Primary;
    PrimaryCanonical(s);
  }

  lemma {:induction false} PrefixedCanonical(s: string)
    ensures Prefixed(s).Done? ==> Canonical(Prefixed(s).value)
    decreases |s|, 3
  {
    hide Suffixed;
    if Starts(s, '!') {
      SuffixedCanonical(Space(s[1..]));
    } else {
      SuffixedCanonical(s);
    }
  }

  ghost predicate AllCanonical(items: seq<Expr>) {
    forall i :: 0 <= i < |items| ==> Canonical(items[i])
  }

  lemma {:induction false} ItemsCanonical(s: string)
    ensures Items(s).Done? ==> AllCanonical(Items(s).value)
    decreases |s|, 4
  {
    hide Prefixed, Canonical, AtRuleStart;
    var t := Space(s);
    if !Stops(t) {
      PrefixedCanonical(t);
      if Prefixed(t).Done? {
        ItemsCanonical(Prefixed(t).rest);
      }
    }
  }

  lemma {:induction false} SequencesCanonical(s: string)
    ensures Sequences(s).Done? ==> Canonical(Sequences(s).value)
    decreases |s|, 5
  {
    hide Items;
    ItemsCanonical(s);
  }

  lemma {:induction false} BranchesCanonical(s: string)
    ensures Branches(s).Done? ==> AllCanonical(Branches(s).value)
    decreases |s|, 4
  {
    hide Sequences, Canonical;
    var t := Space(s);
    if Starts(t, '/') {
      SequencesCanonical(t[1..]);
      if Sequences(t[1..]).Done? {
        BranchesCanonical(Sequences(t[1..]).rest);
      }
    }
  }

  lemma {:induction false} ChoicesCanonical(s: string)
    ensures Choices(s).Done? ==> Canonical(Choices(s).value)
    decreases |s|, 6
  {
    hide Sequences, Branches;
    SequencesCanonical(s);
    if Sequences(s).Done? {
      BranchesCanonical(Sequences(s).rest);
    }
  }

  lemma RuleCanonical(s: string)
    ensures RuleText(s).Done? ==> CanonicalRule(RuleText(s).value)
  {
    hide Choices, NameLength, Canonical, IsName;
    var n := NameLength(s);
    if n > 0 {
      NameTaken(s);
      var t := Space(s[n..]);
      if Starts(t, '(') && NameLength(Space(t[1..])) > 0 {
        NameTaken(Space(t[1..]));
      }
      var p := Parameter(t);
      if p.Done? && Arrow(p.rest) {
        ChoicesCanonical(p.rest[2..]);
      }
    }
  }

  /** Every rule that reads from a file is canonical.  */
  lemma {:induction false} FileCanonical(s: string)
    ensures File(s).Done? ==> forall i :: 0 <= i < |File(s).value| ==> CanonicalRule(File(s).value[i])
    decreases |s|
  {
    hide RuleText, CanonicalRule;
    var t := Space(s);
    if t != [] {
      RuleCanonical(t);
      if RuleText(t).Done? {
        FileCanonical(RuleText(t).rest);
      }
    }
  }

  /** Any file that reads, written out from what it read as, reads the same again.  */
  lemma Rewrites(s: string)
    requires File(s).Done?
    ensures File(ShowRules(File(s).value)) == Done(File(s).value, [])
  {
    FileCanonical(s);
    ShownReadsBack(File(s).value);
  }

  /** Rules can be had from some file exactly when they are canonical.  */
  lemma ReadableIsCanonical(rules: seq<Rule>)
    ensures (exists s: string :: File(s).Done? && File(s).value == rules)
       <==> (forall i :: 0 <= i < |rules| ==> CanonicalRule(rules[i]))
  {
    hide CanonicalRule;
    if forall i :: 0 <= i < |rules| ==> CanonicalRule(rules[i]) {
      ShownReadsBack(rules);
      assert File(ShowRules(rules)).Done?;
    }
    if s: string :| File(s).Done? && File(s).value == rules {
      FileCanonical(s);
    }
  }

  /** So a body that reads has no empty list.  */
  lemma {:induction false} CanonicalNotEmpty(e: Expr)
    requires Canonical(e)
    ensures NoEmptyList(e)
    decreases e
  {
    match e
    case Sequence(items) =>
      forall i | 0 <= i < |items| ensures NoEmptyList(items[i]) { CanonicalNotEmpty(items[i]); }
    case Choice(items) =>
      forall i | 0 <= i < |items| ensures NoEmptyList(items[i]) { CanonicalNotEmpty(items[i]); }
    case Call(_, argument) => CanonicalNotEmpty(argument);
    case Optional(inner) => CanonicalNotEmpty(inner);
    case Repeat(inner) => CanonicalNotEmpty(inner);
    case Not(inner) => CanonicalNotEmpty(inner);
    case Capture(inner) => CanonicalNotEmpty(inner);
    case _ =>
  }
}
