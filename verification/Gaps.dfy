/** What a token's two flags say: a line break, and a block comment, in the gap before it.  */
module Gaps {
  import opened RuleTable
  import opened Lexing
  import opened TokenLaws

  /** A dollar that is a token of its own.  */
  predicate IsDollar(t: Lexed) {
    t.token.kind == Kind.Operator && t.token.text == "$"
  }

  /** A block comment of the gap from `from` to `to` starts at `p`, and not right behind a dollar.  */
  ghost predicate Noticed(q: string, from: nat, to: nat, dollar: bool, p: nat) {
    from <= p < to <= |q| && Skips(q, from, p) && StepAt(q, p).Block? && !(dollar && p == from)
  }

  ghost predicate BlockBetween(q: string, from: nat, to: nat, dollar: bool) {
    exists p: nat :: Noticed(q, from, to, dollar, p)
  }

  /** The flags of a token say what the gap behind the token before it holds.  */
  ghost predicate Flagged(q: string, before: Option<Lexed>, t: Lexed) {
    match before
    case None => !t.token.newline && !t.token.blockComment
    case Some(b) =>
      && b.end <= t.start <= |q|
      && (t.token.newline <==> HasBreak(q[b.end..t.start]))
      && (t.token.blockComment <==> BlockBetween(q, b.end, t.start, IsDollar(b)))
  }

  ghost predicate FlaggedRun(q: string, before: Option<Lexed>, out: seq<Lexed>)
    decreases |out|
  {
    out == [] || (Flagged(q, before, out[0]) && FlaggedRun(q, Some(out[0]), out[1..]))
  }

  /** As above, with the end of input last, which has no flags.  */
  ghost predicate FlaggedAll(q: string, before: Option<Lexed>, out: seq<Lexed>)
    decreases |out|
  {
    && out != []
    && if |out| == 1 then out[0] == EndToken(q)
       else Flagged(q, before, out[0]) && FlaggedAll(q, Some(out[0]), out[1..])
  }

  /** What is remembered at `at`, when `before` was the last token.  */
  ghost predicate Remembers(q: string, past: Past, before: Option<Lexed>, at: nat) {
    && at <= |q| && (past.block.Some? ==> past.block.value < at)
    && match before
       case None => past.prev.None? && !past.dollar
       case Some(b) =>
         && past.prev == Some(b.end) && b.end <= at && Skips(q, b.end, at)
         && (past.dollar <==> IsDollar(b) && at == b.end)
         && (past.block.Some? && b.end <= past.block.value <==> BlockBetween(q, b.end, at, IsDollar(b)))
  }

  // ---------------------------------------------------------------------------------------------
  // Steps over space and comments

  predicate IsGap(step: Step) {
    step.Blank? || step.Line? || step.Block?
  }

  lemma {:induction false} SkipsOn(q: string, from: nat, at: nat)
    requires Skips(q, from, at) && at < |q| && IsGap(StepAt(q, at))
    ensures Skips(q, from, StepEnd(at, StepAt(q, at)))
    decreases |q| - from
  {
    hide StepAt;
    if from == at {
      StepMoves(q, at);
    } else {
      SkipsOn(q, StepEnd(from, StepAt(q, from)), at);
    }
  }

  /** Nothing starts inside a step.  */
  lemma {:induction false} SkipsPast(q: string, from: nat, at: nat, p: nat)
    requires Skips(q, from, at) && Skips(q, from, p) && at < p && IsGap(StepAt(q, at))
    ensures StepEnd(at, StepAt(q, at)) <= p
    decreases |q| - from
  {
    hide StepAt;
    if from < at {
      SkipsPast(q, StepEnd(from, StepAt(q, from)), at, p);
    }
  }

  /** One step more adds its own start, if it is a block comment and not right behind a dollar.  */
  lemma BlockGrows(q: string, from: nat, at: nat, dollar: bool)
    requires Skips(q, from, at) && at < |q| && IsGap(StepAt(q, at))
    ensures var end := StepEnd(at, StepAt(q, at));
            BlockBetween(q, from, end, dollar) <==>
            BlockBetween(q, from, at, dollar) || (StepAt(q, at).Block? && !(dollar && at == from))
  {
    hide StepAt, Skips;
    SkipsForward(q, from, at);
    StepMoves(q, at);
    var end := StepEnd(at, StepAt(q, at));
    if p: nat :| Noticed(q, from, end, dollar, p) {
      if at < p {
        SkipsPast(q, from, at, p);
      } else if p < at {
        assert Noticed(q, from, at, dollar, p);
      }
    }
    if p: nat :| Noticed(q, from, at, dollar, p) {
      assert Noticed(q, from, end, dollar, p);
    }
    assert StepAt(q, at).Block? && !(dollar && at == from) ==> Noticed(q, from, end, dollar, at);
  }

  lemma SkipsForward(q: string, from: nat, at: nat)
    requires Skips(q, from, at)
    ensures from <= at <= |q|
  {}

  lemma GapRemembers(q: string, past: Past, before: Option<Lexed>, at: nat)
    requires at < |q| && Remembers(q, past, before, at) && IsGap(StepAt(q, at))
    ensures Remembers(q, After(q, past, at), before, StepEnd(at, StepAt(q, at)))
  {
    hide StepAt, Skips, BlockBetween;
    StepMoves(q, at);
    if before.Some? {
      SkipsOn(q, before.value.end, at);
      BlockGrows(q, before.value.end, at, IsDollar(before.value));
    }
  }

  // ---------------------------------------------------------------------------------------------
  // Steps that make tokens

  lemma MadeFlagged(q: string, past: Past, before: Option<Lexed>, kind: Kind, keyword: nat, start: nat, end: nat)
    requires Remembers(q, past, before, start) && start <= end <= |q|
    ensures Flagged(q, before, Made(q, past, kind, keyword, start, end))
  {
    hide Skips, BlockBetween;
  }

  /** Right behind a token there is nothing to remember.  */
  lemma FreshRemembers(q: string, past: Past, b: Lexed, at: nat)
    requires b.end == at <= |q| && (past.block.Some? ==> past.block.value < at)
    ensures Remembers(q, Past(Some(at), past.block, IsDollar(b)), Some(b), at)
  {}

  lemma {:induction false} SinglesFlagged(q: string, past: Past, before: Option<Lexed>, at: nat, end: nat)
    requires at < end <= |q| && Remembers(q, past, before, at) && forall k :: at <= k < end ==> q[k] == '+'
    ensures var out := Singles(q, past, at, end);
            out != [] && FlaggedRun(q, before, out) && !IsDollar(out[|out| - 1]) && out[|out| - 1].end == end
    decreases end - at
  {
    hide Remembers, Flagged;
    PastFits(q, past, before, at);
    MadeFlagged(q, past, before, Kind.Operator, NOT_A_KEYWORD, at, at + 1);
    var first := Made(q, past, Kind.Operator, NOT_A_KEYWORD, at, at + 1);
    assert first.token.text[0] == '+';
    if at + 1 < end {
      var rest := Singles(q, past.(prev := Some(at + 1)), at + 1, end);
      SingleNext(q, past, before, first, at);
      SinglesFlagged(q, Past(Some(at + 1), past.block, false), Some(first), at + 1, end);
      SinglesIgnore(q, past.(prev := Some(at + 1)), Past(Some(at + 1), past.block, false), at + 1, end);
      assert Singles(q, past, at, end)[1..] == rest;
    } else {
      assert Singles(q, past, at, end) == [first];
      assert [first][1..] == [];
    }
  }

  lemma PastFits(q: string, past: Past, before: Option<Lexed>, at: nat)
    requires Remembers(q, past, before, at)
    ensures at <= |q| && (past.prev.Some? ==> past.prev.value <= at) && (past.block.Some? ==> past.block.value < at)
  {}

  lemma SingleNext(q: string, past: Past, before: Option<Lexed>, first: Lexed, at: nat)
    requires Remembers(q, past, before, at) && first.end == at + 1 <= |q| && !IsDollar(first)
    ensures Remembers(q, Past(Some(at + 1), past.block, false), Some(first), at + 1)
  {
    FreshRemembers(q, past, first, at + 1);
  }

  /** Whether a dollar came before makes no difference to a run.  */
  lemma {:induction false} SinglesIgnore(q: string, past: Past, other: Past, at: nat, end: nat)
    requires at <= end <= |q| && past.prev == other.prev && past.block == other.block
    requires past.prev.Some? ==> past.prev.value <= at
    ensures Singles(q, past, at, end) == Singles(q, other, at, end)
    decreases end - at
  {
    if at < end {
      SinglesIgnore(q, past.(prev := Some(at + 1)), other.(prev := Some(at + 1)), at + 1, end);
    }
  }

  lemma RunFlagged(q: string, past: Past, before: Option<Lexed>, start: nat, end: nat)
    requires start < end <= |q| && Remembers(q, past, before, start) && q[start] != '$'
    ensures var out := RunTokens(q, past, start, end);
            out != [] && FlaggedRun(q, before, out) && !IsDollar(out[|out| - 1]) && out[|out| - 1].end == end
  {
    hide Remembers, Flagged, Singles;
    PastFits(q, past, before, start);
    var cut := Cut(q, start, end);
    if cut == start {
      SinglesFlagged(q, past, before, start, end);
    } else {
      MadeFlagged(q, past, before, Kind.Operator, NOT_A_KEYWORD, start, cut);
      var head := Made(q, past, Kind.Operator, NOT_A_KEYWORD, start, cut);
      assert head.token.text[0] != '$';
      var rest := Singles(q, past.(prev := Some(cut)), cut, end);
      assert RunTokens(q, past, start, end)[1..] == rest;
      if cut < end {
        FreshRemembers(q, past, head, cut);
        SinglesFlagged(q, Past(Some(cut), past.block, false), Some(head), cut, end);
        SinglesIgnore(q, past.(prev := Some(cut)), Past(Some(cut), past.block, false), cut, end);
      } else {
        NoSingles(q, past.(prev := Some(cut)), cut);
      }
    }
  }

  lemma NoSingles(q: string, past: Past, at: nat)
    requires at <= |q| && (past.prev.Some? ==> past.prev.value <= at)
    ensures Singles(q, past, at, at) == []
  {}

  /** What a step emits is flagged, and what is remembered after it is about its last token.  */
  lemma EmittedFlagged(q: string, keywords: seq<RuleTable.Word>, past: Past, before: Option<Lexed>, at: nat)
    requires at < |q| && !StepAt(q, at).Trouble? && !IsGap(StepAt(q, at)) && Remembers(q, past, before, at)
    ensures var out := Emitted(q, keywords, past, at);
            && out != [] && FlaggedRun(q, before, out)
            && Remembers(q, After(q, past, at), Some(out[|out| - 1]), StepEnd(at, StepAt(q, at)))
  {
    hide Remembers, Flagged, StepAt, RunTokens, Lookup;
    PastFits(q, past, before, at);
    StepMoves(q, at);
    StepShapes(q, at);
    if q[at] == '$' {
      DollarsAreSteps(q, at);
    }
    var step := StepAt(q, at);
    var end := StepEnd(at, step);
    var out := Emitted(q, keywords, past, at);
    if step.Operators? {
      RunFlagged(q, past, before, at, end);
    } else {
      MadeFlagged(q, past, before, out[0].token.kind, out[0].token.keyword, at, end);
      assert out == [out[0]] && out[1..] == [];
      assert out[0].token.text == q[at..end] && q[at..end][0] == q[at];
      assert step.Dollar? ==> q[at..end] == "$";
    }
    assert IsDollar(out[|out| - 1]) <==> step.Dollar?;
    FreshRemembers(q, past, out[|out| - 1], end);
  }

  /** A dollar starts an operator token only on its own.  */
  lemma DollarsAreSteps(q: string, at: nat)
    requires at < |q| && q[at] == '$'
    ensures match StepAt(q, at)
            case Dollar => true
            case LoneDollar => true
            case One(kind, _) => kind == Kind.String
            case _ => false
  {}

  // ---------------------------------------------------------------------------------------------
  // Every token of every query

  lemma {:induction false} FlaggedJoins(q: string, before: Option<Lexed>, front: seq<Lexed>, out: seq<Lexed>)
    requires front != [] && FlaggedRun(q, before, front) && FlaggedAll(q, Some(front[|front| - 1]), out)
    ensures FlaggedAll(q, before, front + out)
    decreases |front|
  {
    hide Flagged;
    assert (front + out)[1..] == front[1..] + out;
    if |front| == 1 {
      assert front[1..] + out == out;
    } else {
      FlaggedJoins(q, Some(front[0]), front[1..], out);
    }
  }

  lemma {:induction false} LexFlagged(q: string, keywords: seq<RuleTable.Word>, past: Past, before: Option<Lexed>, at: nat)
    requires at <= |q| && (past.prev.Some? ==> past.prev.value <= at)
    requires Remembers(q, past, before, at) && Lex(q, keywords, past, at).Lexeds?
    ensures FlaggedAll(q, before, Lex(q, keywords, past, at).out)
    decreases |q| - at
  {
    hide Remembers, Flagged, StepAt, Emitted, After;
    if at < |q| {
      StepMoves(q, at);
      var step := StepAt(q, at);
      var later := After(q, past, at);
      var front := Emitted(q, keywords, past, at);
      if IsGap(step) {
        GapRemembers(q, past, before, at);
        EmittedAbuts(q, keywords, past, at);
        LexFlagged(q, keywords, later, before, StepEnd(at, step));
        var rest := Lex(q, keywords, later, StepEnd(at, step)).out;
        assert [] + rest == rest;
      } else {
        EmittedFlagged(q, keywords, past, before, at);
        LexFlagged(q, keywords, later, Some(front[|front| - 1]), StepEnd(at, step));
        FlaggedJoins(q, before, front, Lex(q, keywords, later, StepEnd(at, step)).out);
      }
    }
  }

  lemma {:induction false} FlaggedAt(q: string, before: Option<Lexed>, out: seq<Lexed>, k: nat)
    requires FlaggedAll(q, before, out) && k < |out|
    ensures k == |out| - 1 ==> out[k] == EndToken(q)
    ensures k < |out| - 1 ==> Flagged(q, if k == 0 then before else Some(out[k - 1]), out[k])
    decreases k
  {
    hide Flagged;
    if k > 0 {
      FlaggedAt(q, Some(out[0]), out[1..], k - 1);
    }
  }

  /** The flags of every token of every query.  The first has none, and neither has the end of input; any
      other has `newline` exactly when its gap holds a line break, and `blockComment` exactly when its gap
      holds a block comment other than one that touches a dollar token.  */
  lemma QueryFlags(q: string, keywords: seq<RuleTable.Word>, k: nat)
    requires LexQuery(q, keywords).Lexeds? && k < |LexQuery(q, keywords).out|
    ensures var out := LexQuery(q, keywords).out;
            var t := out[k].token;
            if k == 0 || k == |out| - 1 then !t.newline && !t.blockComment
            else
              && out[k - 1].end <= out[k].start <= |q|
              && (t.newline <==> HasBreak(q[out[k - 1].end..out[k].start]))
              && (t.blockComment <==> BlockBetween(q, out[k - 1].end, out[k].start, IsDollar(out[k - 1])))
  {
    hide Lex;
    LexFlagged(q, keywords, START, None, 0);
    FlaggedAt(q, None, LexQuery(q, keywords).out, k);
  }

  lemma LexSteps(q: string, keywords: seq<RuleTable.Word>, past: Past, at: nat)
    requires at < |q| && (past.prev.Some? ==> past.prev.value <= at) && !StepAt(q, at).Trouble?
    ensures Lex(q, keywords, past, at) ==
            Prefixed(Emitted(q, keywords, past, at), Lex(q, keywords, After(q, past, at), StepEnd(at, StepAt(q, at))))
  {}

  const DOLLAR_COMMENT: string := "$/**/+"

  lemma DollarCommentSteps()
    ensures StepAt(DOLLAR_COMMENT, 0) == Dollar && StepAt(DOLLAR_COMMENT, 1) == Block(5)
    ensures StepAt(DOLLAR_COMMENT, 5) == Operators(6) && Cut(DOLLAR_COMMENT, 5, 6) == 5
  {
    var q := DOLLAR_COMMENT;
    assert BlockEnd(q, 3, 1) == Some(5);
    assert q[5..6] == "+";
    assert RunEndsAt(q, 6) == 6;
  }

  /** A comment that touches a dollar goes unnoticed: one lies between the dollar and the plus.  */
  lemma DollarHidesComment(keywords: seq<RuleTable.Word>)
    ensures LexQuery(DOLLAR_COMMENT, keywords) == Lexeds([
              Lexed(Token(Kind.Operator, NOT_A_KEYWORD, "$", false, false), 0, 1),
              Lexed(Token(Kind.Operator, NOT_A_KEYWORD, "+", false, false), 5, 6),
              EndToken(DOLLAR_COMMENT)])
    ensures StepAt(DOLLAR_COMMENT, 1) == Block(5)
  {
    hide StepAt, Lex, Cut;
    DollarCommentSteps();
    var q := DOLLAR_COMMENT;
    LexSteps(q, keywords, START, 0);
    LexSteps(q, keywords, Past(Some(1), None, true), 1);
    LexSteps(q, keywords, Past(Some(1), None, false), 5);
    LexStops(q, keywords, Past(Some(6), None, false));
    assert q[0..1] == "$" && q[5..6] == "+";
    assert !HasBreak(q[1..5]);
    assert Singles(q, Past(Some(6), None, false), 6, 6) == [];
  }

  lemma LexStops(q: string, keywords: seq<RuleTable.Word>, past: Past)
    requires past.prev.Some? ==> past.prev.value <= |q|
    ensures Lex(q, keywords, past, |q|) == Lexeds([EndToken(q)])
  {}
}
