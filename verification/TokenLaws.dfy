/** What the tokenizer promises the matcher: tokens that tile the query, each keyed by what it spells.  */
module TokenLaws {
  import opened RuleTable
  import opened Meaning
  import opened Lexing

  // ---------------------------------------------------------------------------------------------
  // Tokens tile the query

  /** Only space and comments lie between two positions.  */
  ghost predicate Skips(q: string, from: nat, to: nat)
    decreases |q| - from
  {
    && from <= to <= |q|
    && (from == to
        || (var step := StepAt(q, from);
            && (step.Blank? || step.Line? || step.Block?)
            && from < StepEnd(from, step) <= |q|
            && Skips(q, StepEnd(from, step), to)))
  }

  /** From `from` on: space and comments, a token spelling what it spans, and so on to the end of input.  */
  ghost predicate Tiles(q: string, from: nat, out: seq<Lexed>)
    decreases |out|
  {
    && out != [] && Skips(q, from, out[0].start) && out[0].start <= out[0].end <= |q|
    && out[0].token.text == q[out[0].start..out[0].end]
    && if |out| == 1 then out[0] == EndToken(q)
       else out[0].start < out[0].end && Tiles(q, out[0].end, out[1..])
  }

  /** A run of tokens with nothing between them, from `at` to `end`.  */
  ghost predicate Abut(q: string, at: nat, end: nat, out: seq<Lexed>)
    decreases |out|
  {
    if out == [] then at == end
    else
      && out[0].start == at < out[0].end <= |q| && out[0].token.text == q[at..out[0].end]
      && Abut(q, out[0].end, end, out[1..])
  }

  lemma {:induction false} SinglesAbut(q: string, past: Past, at: nat, end: nat)
    requires at <= end <= |q| && (past.prev.Some? ==> past.prev.value <= at)
    ensures Abut(q, at, end, Singles(q, past, at, end))
    decreases end - at
  {
    if at < end {
      SinglesAbut(q, past.(prev := Some(at + 1)), at + 1, end);
      assert Singles(q, past, at, end)[1..] == Singles(q, past.(prev := Some(at + 1)), at + 1, end);
    }
  }

  lemma RunAbuts(q: string, past: Past, start: nat, end: nat)
    requires start < end <= |q| && (past.prev.Some? ==> past.prev.value <= start)
    ensures Abut(q, start, end, RunTokens(q, past, start, end))
  {
    hide Singles;
    var cut := Cut(q, start, end);
    if cut == start {
      SinglesAbut(q, past, start, end);
    } else {
      SinglesAbut(q, past.(prev := Some(cut)), cut, end);
      assert RunTokens(q, past, start, end)[1..] == Singles(q, past.(prev := Some(cut)), cut, end);
    }
  }

  lemma {:induction false} AbutTiles(q: string, at: nat, end: nat, front: seq<Lexed>, out: seq<Lexed>)
    requires Abut(q, at, end, front) && Tiles(q, end, out) && at <= |q|
    ensures Tiles(q, at, front + out)
    decreases |front|
  {
    if front == [] {
      assert front + out == out;
    } else {
      AbutTiles(q, front[0].end, end, front[1..], out);
      assert (front + out)[1..] == front[1..] + out;
    }
  }

  /** What a step emits covers it, or the step is space or a comment.  */
  lemma EmittedAbuts(q: string, keywords: seq<RuleTable.Word>, past: Past, at: nat)
    requires at < |q| && !StepAt(q, at).Trouble? && (past.prev.Some? ==> past.prev.value <= at)
    ensures var step := StepAt(q, at);
            if step.Blank? || step.Line? || step.Block? then Emitted(q, keywords, past, at) == []
            else Abut(q, at, StepEnd(at, step), Emitted(q, keywords, past, at))
  {
    hide StepAt, RunTokens, Lookup;
    StepMoves(q, at);
    match StepAt(q, at)
    case Operators(end) => RunAbuts(q, past, at, end);
    case _ =>
  }

  /** The tokens of a query tile it: nothing but space and comments lies between them.  */
  lemma {:induction false} LexTiles(q: string, keywords: seq<RuleTable.Word>, past: Past, at: nat)
    requires at <= |q| && (past.prev.Some? ==> past.prev.value <= at)
    requires Lex(q, keywords, past, at).Lexeds?
    ensures Tiles(q, at, Lex(q, keywords, past, at).out)
    decreases |q| - at
  {
    hide StepAt, Emitted, After;
    if at < |q| {
      StepMoves(q, at);
      var step := StepAt(q, at);
      var end := StepEnd(at, step);
      LexTiles(q, keywords, After(q, past, at), end);
      var rest := Lex(q, keywords, After(q, past, at), end).out;
      EmittedAbuts(q, keywords, past, at);
      if step.Blank? || step.Line? || step.Block? {
        assert [] + rest == rest;
      } else {
        AbutTiles(q, at, end, Emitted(q, keywords, past, at), rest);
      }
    }
  }

  // ---------------------------------------------------------------------------------------------
  // Tokens are keyed by what they spell

  /** A symbol the tokenizer can hand over as punctuation.  */
  predicate Fitting(symbol: string) {
    && symbol != [] && IsPunctuation(symbol[0]) && symbol[0] != '\'' && symbol[0] != '"'
    && (symbol[0] == '$' || symbol[0] == '.' ==> |symbol| == 1)
  }

  predicate SymbolsFit(symbols: seq<string>) {
    forall i :: 0 <= i < |symbols| ==> Fitting(symbols[i])
  }

  /** A dollar that ended the text.  */
  predicate IsLone(t: Token) {
    t.kind == Kind.Identifier && t.text == "$"
  }

  /** How a token's kind goes with its spelling.  */
  predicate Shaped(t: Token) {
    match t.kind
    case Identifier => t.text == "$" || (t.text != [] && !IsPunctuation(t.text[0]))
    case Keyword => t.text != [] && !IsPunctuation(t.text[0])
    case QuotedIdentifier => t.text != [] && t.text[0] == '"'
    case Number => t.text != [] && (!IsPunctuation(t.text[0]) || t.text[0] == '.')
    case String =>
      t.text != [] && (!IsPunctuation(t.text[0]) || t.text[0] == '\'' || (t.text[0] == '$' && |t.text| > 1))
    case Operator => t.text != [] && t.text[0] != ';'
    case Terminator => t.text == ";"
    case EndOfInput => t.text == []
  }

  /** A token as the table sees it.  */
  predicate Sound(keywords: seq<RuleTable.Word>, t: Token) {
    && Shaped(t)
    && (if t.keyword == NOT_A_KEYWORD then t.kind != Kind.Keyword
        else t.keyword < |keywords| && keywords[t.keyword].text == Lower(t.text)
             && t.kind == WordKind(keywords, t.keyword))
  }

  /** A shaped token fits the symbols exactly when it is not a lone dollar that is also a symbol.  */
  lemma ShapedFits(c: Code, t: Token)
    requires Shaped(t) && SymbolsFit(c.symbols) && |c.symbols| <= 255 && Distinct(c.symbols)
    ensures SymbolOk(c, t) <==> !(IsLone(t) && "$" in c.symbols)
  {
    hide SymbolOk;
    SymbolOkBySpelling(c, t);
    if IsLone(t) && "$" in c.symbols {
      assert TokenKey(t) !in SymbolFirst(t.text);
    } else if t.text in c.symbols {
      assert Fitting(t.text);
    }
  }

  /** The shape of what a step emits.  */
  lemma StepShapes(q: string, at: nat)
    requires at < |q| && !StepAt(q, at).Trouble?
    ensures match StepAt(q, at)
            case One(kind, end) =>
              kind != Kind.Identifier && kind != Kind.Keyword && at < end <= |q|
              && Shaped(Token(kind, NOT_A_KEYWORD, q[at..end], false, false))
            case Word(end) => !IsPunctuation(q[at])
            case Operators(end) => q[at] != ';'
            case Dollar => q[at] == '$'
            case LoneDollar => q[at] == '$'
            case _ => true
  {
    StepMoves(q, at);
  }

  ghost predicate AllSound(keywords: seq<RuleTable.Word>, out: seq<Lexed>) {
    forall i :: 0 <= i < |out| ==> Sound(keywords, out[i].token)
  }

  lemma {:induction false} SinglesSound(q: string, keywords: seq<RuleTable.Word>, past: Past, at: nat, end: nat)
    requires at <= end <= |q| && (past.prev.Some? ==> past.prev.value <= at)
    requires forall k :: at <= k < end ==> q[k] == '+'
    ensures AllSound(keywords, Singles(q, past, at, end))
    decreases end - at
  {
    if at < end {
      SinglesSound(q, keywords, past.(prev := Some(at + 1)), at + 1, end);
    }
  }

  lemma RunSound(q: string, keywords: seq<RuleTable.Word>, past: Past, start: nat, end: nat)
    requires start < end <= |q| && (past.prev.Some? ==> past.prev.value <= start) && q[start] != ';'
    ensures AllSound(keywords, RunTokens(q, past, start, end))
  {
    hide Singles;
    var cut := Cut(q, start, end);
    if cut == start {
      SinglesSound(q, keywords, past, start, end);
    } else {
      SinglesSound(q, keywords, past.(prev := Some(cut)), cut, end);
    }
  }

  lemma EmittedSound(q: string, keywords: seq<RuleTable.Word>, past: Past, at: nat)
    requires at < |q| && !StepAt(q, at).Trouble? && (past.prev.Some? ==> past.prev.value <= at)
    requires |keywords| <= NOT_A_KEYWORD
    ensures AllSound(keywords, Emitted(q, keywords, past, at))
  {
    hide StepAt, RunTokens;
    StepShapes(q, at);
    StepMoves(q, at);
    match StepAt(q, at)
    case Operators(end) => RunSound(q, keywords, past, at, end);
    case _ =>
  }

  /** Every token's kind goes with its spelling, and its number is the one its word has in the table.  */
  lemma {:induction false} LexSound(q: string, keywords: seq<RuleTable.Word>, past: Past, at: nat)
    requires at <= |q| && (past.prev.Some? ==> past.prev.value <= at) && |keywords| <= NOT_A_KEYWORD
    requires Lex(q, keywords, past, at).Lexeds?
    ensures AllSound(keywords, Lex(q, keywords, past, at).out)
    decreases |q| - at
  {
    hide StepAt, Emitted, After, Sound;
    if at < |q| {
      StepMoves(q, at);
      EmittedSound(q, keywords, past, at);
      LexSound(q, keywords, After(q, past, at), StepEnd(at, StepAt(q, at)));
    } else {
      EndIsSound(q, keywords);
    }
  }

  lemma EndIsSound(q: string, keywords: seq<RuleTable.Word>)
    ensures Sound(keywords, EndToken(q).token)
  {}

  function TokensOf(out: seq<Lexed>): seq<Token> {
    seq(|out|, i requires 0 <= i < |out| => out[i].token)
  }

  /** The tokens of a query are keyed as the matcher's filter needs, unless the query ends in a lone dollar
      and the grammar has a dollar symbol; and then they are not.  */
  lemma TokensKeyed(c: Code, q: string)
    requires |c.keywords| <= NOT_A_KEYWORD && LexQuery(q, c.keywords).Lexeds?
    requires SymbolsFit(c.symbols) && |c.symbols| <= 255 && Distinct(c.symbols)
    ensures var tokens := TokensOf(LexQuery(q, c.keywords).out);
            AllWellKeyed(c, tokens) <==> !("$" in c.symbols && exists t :: t in tokens && IsLone(t))
  {
    hide Lex, Shaped, SymbolOk;
    var out := LexQuery(q, c.keywords).out;
    var tokens := TokensOf(out);
    LexSound(q, c.keywords, START, 0);
    forall i | 0 <= i < |tokens| ensures WellKeyed(c, tokens[i]) <==> !(IsLone(tokens[i]) && "$" in c.symbols) {
      assert Sound(c.keywords, out[i].token);
      ShapedFits(c, tokens[i]);
    }
    assert forall t :: t in tokens ==> exists i :: 0 <= i < |tokens| && tokens[i] == t;
  }

  /** Such a query: the dollar alone.  */
  lemma LoneDollarQuery(c: Code)
    requires |c.keywords| <= NOT_A_KEYWORD
    requires SymbolsFit(c.symbols) && |c.symbols| <= 255 && Distinct(c.symbols) && "$" in c.symbols
    ensures LexQuery("$", c.keywords) ==
            Lexeds([Lexed(Token(Kind.Identifier, NOT_A_KEYWORD, "$", false, false), 0, 1), EndToken("$")])
    ensures !AllWellKeyed(c, TokensOf(LexQuery("$", c.keywords).out))
  {
    hide AllWellKeyed, SymbolsFit;
    assert StepAt("$", 0) == LoneDollar && "$"[0..1] == "$";
    TokensKeyed(c, "$");
    var tokens := TokensOf(LexQuery("$", c.keywords).out);
    assert tokens[0] in tokens && IsLone(tokens[0]);
  }

  /** A lone dollar is the end of the query.  */
  lemma {:induction false} LoneEnds(q: string, keywords: seq<RuleTable.Word>, past: Past, at: nat, i: nat)
    requires at <= |q| && (past.prev.Some? ==> past.prev.value <= at) && Lex(q, keywords, past, at).Lexeds?
    requires i < |Lex(q, keywords, past, at).out| && IsLone(Lex(q, keywords, past, at).out[i].token)
    ensures q != [] && q[|q| - 1] == '$'
    decreases |q| - at
  {
    hide StepAt, After, Lookup, RunTokens;
    StepShapes(q, at);
    StepMoves(q, at);
    var front := Emitted(q, keywords, past, at);
    var end := StepEnd(at, StepAt(q, at));
    if i < |front| {
      assert Lex(q, keywords, past, at).out[i] == front[i];
      LoneEmitted(q, keywords, past, at, i);
    } else {
      assert Lex(q, keywords, past, at).out[i] == Lex(q, keywords, After(q, past, at), end).out[i - |front|];
      LoneEnds(q, keywords, After(q, past, at), end, i - |front|);
    }
  }

  lemma LoneEmitted(q: string, keywords: seq<RuleTable.Word>, past: Past, at: nat, i: nat)
    requires at < |q| && !StepAt(q, at).Trouble? && (past.prev.Some? ==> past.prev.value <= at)
    requires i < |Emitted(q, keywords, past, at)| && IsLone(Emitted(q, keywords, past, at)[i].token)
    ensures q[|q| - 1] == '$'
  {
    StepShapes(q, at);
    StepMoves(q, at);
    match StepAt(q, at)
    case Operators(end) => RunOperators(q, past, at, end, i);
    case _ =>
  }

  lemma {:induction false} SinglesOperators(q: string, past: Past, at: nat, end: nat, i: nat)
    requires at <= end <= |q| && (past.prev.Some? ==> past.prev.value <= at)
    requires i < |Singles(q, past, at, end)|
    ensures Singles(q, past, at, end)[i].token.kind == Kind.Operator
    decreases end - at
  {
    if i > 0 {
      SinglesOperators(q, past.(prev := Some(at + 1)), at + 1, end, i - 1);
    }
  }

  lemma RunOperators(q: string, past: Past, start: nat, end: nat, i: nat)
    requires start < end <= |q| && (past.prev.Some? ==> past.prev.value <= start)
    requires i < |RunTokens(q, past, start, end)|
    ensures RunTokens(q, past, start, end)[i].token.kind == Kind.Operator
  {
    hide Singles;
    var cut := Cut(q, start, end);
    if cut == start {
      SinglesOperators(q, past, start, end, i);
    } else if i > 0 {
      SinglesOperators(q, past.(prev := Some(cut)), cut, end, i - 1);
    }
  }
}
