/** Every token of every query, and the text that makes one token.  */
module SpelledTokens {
  import opened RuleTable
  import opened Meaning
  import opened Lexing
  import opened TokenLaws
  import opened Spelling

  // ---------------------------------------------------------------------------------------------
  // Where a token comes from

  /** A word's number is its place in the table, whatever its case, and it is a keyword when it has a class.  */
  ghost predicate Numbered(keywords: seq<RuleTable.Word>, t: Token) {
    if t.keyword == 65535 then
      t.kind == Kind.Identifier && forall i :: 0 <= i < |keywords| ==> keywords[i].text != Lower(t.text)
    else
      && t.keyword < |keywords| && keywords[t.keyword].text == Lower(t.text)
      && t.kind == (if keywords[t.keyword].classes == {} then Kind.Identifier else Kind.Keyword)
  }

  /** A mark that keeps the plus signs after a run in it.  */
  predicate Holds(c: char) {
    c in {'~', '!', '@', '#', '%', '^', '&', '|', '`', '?'}
  }

  /** Where the head of a run ends: at its end when a holding mark is in it, and otherwise before the plus
      signs it ends in.  */
  ghost predicate HeadEnds(q: string, at: nat, end: nat, cut: nat) {
    && at <= cut <= end <= |q|
    && if exists p :: at <= p < end && Holds(q[p]) then cut == end
       else (forall p :: cut <= p < end ==> q[p] == '+') && (at < cut ==> q[cut - 1] != '+')
  }

  /** The token is the head of the run or one of the plus signs after it.  */
  ghost predicate IsPiece(q: string, at: nat, end: nat, cut: nat, t: Lexed) {
    HeadEnds(q, at, end, cut) && ((t.start == at < cut == t.end) || (cut <= t.start && t.end == t.start + 1 <= end))
  }

  /** The token is what the step at `at` makes.  */
  ghost predicate Makes(q: string, keywords: seq<RuleTable.Word>, at: nat, step: Step, t: Lexed) {
    && t.start <= t.end <= |q| && t.token.text == q[t.start..t.end]
    && match step
       case One(kind, end) => t.start == at && t.end == end && t.token.kind == kind && t.token.keyword == 65535
       case Word(end) => t.start == at && t.end == end && Numbered(keywords, t.token)
       case Operators(end) =>
         t.token.kind == Kind.Operator && t.token.keyword == 65535 && exists cut: nat :: IsPiece(q, at, end, cut, t)
       case Dollar => t.start == at && t.end == at + 1 && t.token.kind == Kind.Operator && t.token.keyword == 65535
       case LoneDollar => t.start == at && t.end == at + 1 && t.token.kind == Kind.Identifier && t.token.keyword == 65535
       case _ => false
  }

  lemma {:induction false} PlusStartIs(q: string, start: nat, end: nat)
    requires start <= end <= |q|
    ensures var cut := PlusStart(q, start, end);
            (forall p :: cut <= p < end ==> q[p] == '+') && (start < cut ==> q[cut - 1] != '+')
    decreases end
  {
    if end > start && q[end - 1] == '+' {
      PlusStartIs(q, start, end - 1);
    }
  }

  lemma CutIs(q: string, start: nat, end: nat)
    requires start <= end <= |q|
    ensures HeadEnds(q, start, end, Cut(q, start, end))
  {
    PlusStartIs(q, start, end);
    var run := q[start..end];
    assert forall p :: start <= p < end ==> q[p] == run[p - start];
    assert forall i :: 0 <= i < |run| ==> run[i] == q[start + i];
    if IsMarked(run) {
      var i :| 0 <= i < |run| && run[i] in "~!@#%^&|`?";
      assert Holds(q[start + i]);
    }
    if p :| start <= p < end && Holds(q[p]) {
      assert run[p - start] in "~!@#%^&|`?";
    }
  }

  lemma {:induction false} SinglesAre(q: string, past: Past, at: nat, end: nat, i: nat)
    requires at <= end <= |q| && (past.prev.Some? ==> past.prev.value <= at) && i < |Singles(q, past, at, end)|
    ensures var t := Singles(q, past, at, end)[i];
            && at <= t.start && t.end == t.start + 1 <= end && t.token.text == q[t.start..t.end]
            && t.token.kind == Kind.Operator && t.token.keyword == 65535
    decreases end - at
  {
    if i > 0 {
      SinglesAre(q, past.(prev := Some(at + 1)), at + 1, end, i - 1);
    }
  }

  lemma PiecesAre(q: string, keywords: seq<RuleTable.Word>, past: Past, at: nat, end: nat, i: nat)
    requires at < end <= |q| && (past.prev.Some? ==> past.prev.value <= at) && i < |RunTokens(q, past, at, end)|
    ensures Makes(q, keywords, at, Operators(end), RunTokens(q, past, at, end)[i])
  {
    hide Singles, HeadEnds;
    CutIs(q, at, end);
    var cut := Cut(q, at, end);
    var t := RunTokens(q, past, at, end)[i];
    if cut == at {
      SinglesAre(q, past, at, end, i);
    } else if i > 0 {
      SinglesAre(q, past.(prev := Some(cut)), cut, end, i - 1);
    }
    assert IsPiece(q, at, end, cut, t);
  }

  lemma WordNumbered(q: string, keywords: seq<RuleTable.Word>, past: Past, at: nat, end: nat)
    requires at <= end <= |q| && (past.prev.Some? ==> past.prev.value <= at) && |keywords| <= 65535
    ensures var n := Lookup(keywords, q[at..end]);
            Numbered(keywords, Made(q, past, WordKind(keywords, n), n, at, end).token)
  {
    hide Lower, FindWord;
  }

  lemma EmittedMakes(q: string, keywords: seq<RuleTable.Word>, past: Past, at: nat, i: nat)
    requires at < |q| && !StepAt(q, at).Trouble? && (past.prev.Some? ==> past.prev.value <= at) && |keywords| <= 65535
    requires i < |Emitted(q, keywords, past, at)|
    ensures Makes(q, keywords, at, StepAt(q, at), Emitted(q, keywords, past, at)[i])
  {
    hide StepAt, RunTokens, Numbered, Lookup, WordKind;
    StepMoves(q, at);
    match StepAt(q, at)
    case Operators(end) => PiecesAre(q, keywords, past, at, end, i);
    case Word(end) => WordNumbered(q, keywords, past, at, end);
    case _ =>
  }

  lemma {:induction false} LexMakes(q: string, keywords: seq<RuleTable.Word>, past: Past, at: nat, k: nat)
    returns (from: nat)
    requires at <= |q| && (past.prev.Some? ==> past.prev.value <= at) && |keywords| <= 65535
    requires Lex(q, keywords, past, at).Lexeds? && k < |Lex(q, keywords, past, at).out| - 1
    ensures from < |q| && Makes(q, keywords, from, StepAt(q, from), Lex(q, keywords, past, at).out[k])
    decreases |q| - at
  {
    hide StepAt, Emitted, After, Makes;
    StepMoves(q, at);
    var front := Emitted(q, keywords, past, at);
    var end := StepEnd(at, StepAt(q, at));
    if k < |front| {
      assert Lex(q, keywords, past, at).out[k] == front[k];
      EmittedMakes(q, keywords, past, at, k);
      from := at;
    } else {
      assert Lex(q, keywords, past, at).out[k] == Lex(q, keywords, After(q, past, at), end).out[k - |front|];
      from := LexMakes(q, keywords, After(q, past, at), end, k - |front|);
    }
  }

  /** Every token but the end of input is what the text somewhere spells.  */
  lemma TokenIsSpelled(q: string, keywords: seq<RuleTable.Word>, k: nat) returns (from: nat, step: Step)
    requires |keywords| <= 65535 && LexQuery(q, keywords).Lexeds? && k < |LexQuery(q, keywords).out| - 1
    ensures from < |q| && Spells(q, from, step) && Makes(q, keywords, from, step, LexQuery(q, keywords).out[k])
  {
    hide Lex, StepAt, Spells, Makes;
    from := LexMakes(q, keywords, START, 0, k);
    step := StepAt(q, from);
    StepIsSpelled(q, from, step);
  }

  /** An operator stands on its own, or is a piece of a run, or is a dollar.  */
  ghost predicate OperatorSpelled(q: string, t: Lexed) {
    || IsOperator(q, t.start, t.end)
    || (t.token.text == "$" && t.end < |q| && !OpensTag(q, t.start))
    || exists at: nat, end: nat, cut: nat :: IsRun(q, at, end) && IsPiece(q, at, end, cut, t)
  }

  /** How every token of every query is spelled, by its kind.  */
  lemma TokensBySpelling(q: string, keywords: seq<RuleTable.Word>, k: nat)
    requires |keywords| <= 65535 && LexQuery(q, keywords).Lexeds? && k < |LexQuery(q, keywords).out| - 1
    ensures var t := LexQuery(q, keywords).out[k];
            && t.start < t.end <= |q| && t.token.text == q[t.start..t.end]
            && match t.token.kind
               case String => IsStringSpan(q, t.start, t.end)
               case QuotedIdentifier => q[t.start] == '"' && Closes(q, t.start + 1, t.end, '"') && t.start + 2 < t.end
               case Terminator => t.token.text == ";"
               case Number => exists run: nat :: IsNumberSpan(q, t.start, t.end, run)
               case Keyword => IsWordSpan(q, t.start, t.end) && Numbered(keywords, t.token)
               case Identifier =>
                 || (IsWordSpan(q, t.start, t.end) && Numbered(keywords, t.token))
                 || (t.token.text == "$" && t.end == |q| && t.token.keyword == 65535)
               case Operator => t.token.keyword == 65535 && OperatorSpelled(q, t)
               case EndOfInput => false
  {
    hide Lex, Closes, IsStringSpan, IsNumberSpan, IsWordSpan, IsOperator, IsRun, IsPiece, OpensTag, Numbered;
    var from, step := TokenIsSpelled(q, keywords, k);
    var t := LexQuery(q, keywords).out[k];
    match step
    case One(kind, end) => assert IsKind(q, kind, from, end);
    case Word(end) =>
      WordForward(q, from, end);
      NumberedKind(keywords, t.token);
    case Operators(end) => PieceForward(q, from, end, t);
    case LoneDollar => assert q[from..from + 1] == "$";
    case Dollar => assert q[from..from + 1] == "$";
    case _ =>
  }

  lemma WordForward(q: string, at: nat, end: nat)
    requires IsWordSpan(q, at, end)
    ensures at < end <= |q|
  {}

  lemma NumberedKind(keywords: seq<RuleTable.Word>, t: Token)
    requires Numbered(keywords, t)
    ensures t.kind == Kind.Keyword || t.kind == Kind.Identifier
  {}

  lemma PieceForward(q: string, at: nat, end: nat, t: Lexed)
    requires exists cut: nat :: IsPiece(q, at, end, cut, t)
    ensures t.start < t.end <= |q|
  {}

  /** A string that starts with a quote: inside it quotes come in pairs, and none comes right after it.  */
  lemma PlainStrings(q: string, keywords: seq<RuleTable.Word>, k: nat)
    requires |keywords| <= 65535 && LexQuery(q, keywords).Lexeds? && k < |LexQuery(q, keywords).out| - 1
    requires var t := LexQuery(q, keywords).out[k].token; t.kind == Kind.String && t.text != [] && t.text[0] == '\''
    ensures var t := LexQuery(q, keywords).out[k];
            && |t.token.text| >= 2 && t.token.text[|t.token.text| - 1] == '\''
            && Doubles(t.token.text[1..|t.token.text| - 1], '\'')
            && (t.end < |q| ==> q[t.end] != '\'')
  {
    hide Lex, IsNumberSpan, IsWordSpan, Numbered, IsTag;
    TokensBySpelling(q, keywords, k);
    var t := LexQuery(q, keywords).out[k];
    NoTagHere(q, t.start);
    assert t.token.text[1..|t.token.text| - 1] == q[t.start + 1..t.end - 1];
  }

  // ---------------------------------------------------------------------------------------------
  // Text that is one token

  /** The query is one token and the end of input.  */
  ghost predicate IsOne(q: string, keywords: seq<RuleTable.Word>, kind: Kind) {
    LexQuery(q, keywords) == Lexeds([Lexed(Token(kind, 65535, q, false, false), 0, |q|), EndToken(q)])
  }

  lemma OneStep(q: string, keywords: seq<RuleTable.Word>, kind: Kind)
    requires q != [] && Spells(q, 0, One(kind, |q|))
    ensures IsOne(q, keywords, kind)
  {
    hide Spells;
    StepIsSpelled(q, 0, One(kind, |q|));
    LexOne(q, keywords, kind);
  }

  lemma LexOne(q: string, keywords: seq<RuleTable.Word>, kind: Kind)
    requires q != [] && StepAt(q, 0) == One(kind, |q|)
    ensures IsOne(q, keywords, kind)
  {
    hide StepAt;
    assert q[0..|q|] == q;
    assert Lex(q, keywords, After(q, START, 0), |q|) == Lexeds([EndToken(q)]);
  }

  /** Every mark doubled.  */
  function Doubled(s: string, mark: char): string {
    if s == [] then [] else (if s[0] == mark then [mark, mark] else [s[0]]) + Doubled(s[1..], mark)
  }

  lemma {:induction false} DoubledDoubles(s: string, mark: char)
    ensures Doubles(Doubled(s, mark), mark)
  {
    if s != [] {
      DoubledDoubles(s[1..], mark);
      var d := Doubled(s, mark);
      assert d[if s[0] == mark then 2 else 1..] == Doubled(s[1..], mark);
    }
  }

  lemma QuotedCloses(s: string, mark: char)
    ensures var q := [mark] + Doubled(s, mark) + [mark]; Closes(q, 1, |q|, mark)
  {
    var q := [mark] + Doubled(s, mark) + [mark];
    DoubledDoubles(s, mark);
    assert q[1..|q| - 1] == Doubled(s, mark);
  }

  /** Any text in quotes, its quotes doubled, is one string.  */
  lemma QuotedText(s: string, keywords: seq<RuleTable.Word>)
    ensures IsOne("'" + Doubled(s, '\'') + "'", keywords, Kind.String)
  {
    var q := "'" + Doubled(s, '\'') + "'";
    QuotedCloses(s, '\'');
    assert Spells(q, 0, One(Kind.String, |q|));
    OneStep(q, keywords, Kind.String);
  }

  /** Any text but none in double quotes, its double quotes doubled, is one name; none is a trouble.  */
  lemma QuotedName(s: string, keywords: seq<RuleTable.Word>)
    ensures var q := "\"" + Doubled(s, '"') + "\"";
            if s == [] then LexQuery(q, keywords) == Stopped(EmptyName) else IsOne(q, keywords, Kind.QuotedIdentifier)
  {
    var q := "\"" + Doubled(s, '"') + "\"";
    QuotedCloses(s, '"');
    if s == [] {
      assert q == "\"\"";
      StepIsSpelled(q, 0, Step.Trouble(EmptyName));
    } else {
      assert Spells(q, 0, One(Kind.QuotedIdentifier, |q|));
      OneStep(q, keywords, Kind.QuotedIdentifier);
    }
  }

  /** Quotes and backslashes with a backslash before them.  */
  function Slashed(s: string): string {
    if s == [] then [] else (if s[0] == '\'' || s[0] == '\\' then ['\\', s[0]] else [s[0]]) + Slashed(s[1..])
  }

  lemma {:induction false} SlashedEscapes(s: string)
    ensures Escapes(Slashed(s))
  {
    if s != [] {
      SlashedEscapes(s[1..]);
      var d := Slashed(s);
      assert d[if s[0] == '\'' || s[0] == '\\' then 2 else 1..] == Slashed(s[1..]);
    }
  }

  /** Any text after an E, its quotes and backslashes escaped, is one string.  */
  lemma EscapedText(s: string, keywords: seq<RuleTable.Word>)
    ensures IsOne("E'" + Slashed(s) + "'", keywords, Kind.String)
  {
    var q := "E'" + Slashed(s) + "'";
    SlashedEscapes(s);
    assert q[2..|q| - 1] == Slashed(s);
    assert LeadCloses(q, 0, |q|);
    assert Spells(q, 0, One(Kind.String, |q|));
    OneStep(q, keywords, Kind.String);
  }

  /** Any text without a dollar between two tags is one string.  */
  lemma TaggedText(tag: string, body: string, keywords: seq<RuleTable.Word>)
    requires IsTag(tag) && '$' !in body
    ensures IsOne("$" + tag + "$" + body + "$" + tag + "$", keywords, Kind.String)
  {
    var q := "$" + tag + "$" + body + "$" + tag + "$";
    TagsApart(tag, body);
    assert Tagged(q, 0, |q|, tag);
    assert Spells(q, 0, One(Kind.String, |q|));
    OneStep(q, keywords, Kind.String);
  }

  lemma TagsApart(tag: string, body: string)
    requires IsTag(tag) && '$' !in body
    ensures Tagged("$" + tag + "$" + body + "$" + tag + "$", 0, |body| + 2 * |tag| + 4, tag)
  {
    var q := "$" + tag + "$" + body + "$" + tag + "$";
    var from := |tag| + 2;
    var last := from + |body|;
    assert q[1..|tag| + 1] == tag && q[0] == '$' && q[|tag| + 1] == '$';
    assert TagAt(q, 0, tag);
    assert q[last] == '$' && q[last + 1..last + 1 + |tag|] == tag && q[last + 1 + |tag|] == '$';
    assert TagAt(q, last, tag);
    forall p | from <= p < last ensures !TagAt(q, p, tag) {
      assert q[p] == body[p - from];
    }
  }

  /** A word on its own is one token, numbered by the table.  */
  lemma BareWord(w: string, keywords: seq<RuleTable.Word>)
    requires w != [] && !Digit(w[0]) && |keywords| <= 65535 && forall i :: 0 <= i < |w| ==> Letterlike(w[i])
    ensures var lexed := LexQuery(w, keywords);
            && lexed.Lexeds? && |lexed.out| == 2 && lexed.out[1] == EndToken(w)
            && lexed.out[0].token.text == w && lexed.out[0].start == 0 && lexed.out[0].end == |w|
            && Numbered(keywords, lexed.out[0].token)
  {
    hide Numbered;
    assert Spells(w, 0, Step.Word(|w|));
    StepIsSpelled(w, 0, Step.Word(|w|));
    LexWord(w, keywords);
  }

  /** A literal of the grammar is a word when it is letters and underscores.  */
  lemma WordByCode(text: string)
    ensures IsWord(text) <==>
            forall i :: 0 <= i < |text| ==>
              var code := text[i] as int; 65 <= code <= 90 || code == 95 || 97 <= code <= 122
  {}

  /** A word literal takes a word of a query exactly when the two differ in nothing but case.  */
  lemma WordLiteral(env: Env, literal: string, w: string, g: Grammar, fuel: nat)
    requires literal != "" && IsWord(literal) && Lower(literal) in env.words && fuel > 0
    requires |g.keywords| <= 65535 && exists i :: 0 <= i < |g.keywords| && g.keywords[i].text == Lower(literal)
    requires w != [] && !Digit(w[0]) && forall i :: 0 <= i < |w| ==> Letterlike(w[i])
    requires LexQuery(w, g.keywords).Lexeds? && g.tokens == TokensOf(LexQuery(w, g.keywords).out)
    ensures ExpandLiteral(env, literal).Ok?
    ensures Eval(g, ExpandLiteral(env, literal).value, 0, fuel)
         == Some(if Lower(w) == Lower(literal) then Hit(1, []) else Miss)
  {
    hide LexQuery, IsWord;
    BareWord(w, g.keywords);
  }

  lemma LexWord(w: string, keywords: seq<RuleTable.Word>)
    requires w != [] && |keywords| <= 65535 && StepAt(w, 0) == Step.Word(|w|)
    ensures var lexed := LexQuery(w, keywords);
            && lexed.Lexeds? && |lexed.out| == 2 && lexed.out[1] == EndToken(w)
            && lexed.out[0].token.text == w && lexed.out[0].start == 0 && lexed.out[0].end == |w|
            && Numbered(keywords, lexed.out[0].token)
  {
    hide StepAt, Numbered, Lookup;
    assert w[0..|w|] == w;
    WordNumbered(w, keywords, START, 0, |w|);
    assert Lex(w, keywords, After(w, START, 0), |w|) == Lexeds([EndToken(w)]);
  }

  /** Text that goes on as a number to its end is one number.  */
  lemma WholeNumber(q: string, keywords: seq<RuleTable.Word>)
    requires q != [] && Numeric(q[0]) && forall i :: 0 < i < |q| ==> GoesOn(q, 0, i)
    ensures IsOne(q, keywords, Kind.Number)
  {
    assert IsNumberSpan(q, 0, |q|, |q|);
    assert Spells(q, 0, One(Kind.Number, |q|));
    OneStep(q, keywords, Kind.Number);
  }

  predicate Digits(s: string) {
    s != [] && forall i :: 0 <= i < |s| ==> Digit(s[i])
  }

  /** Digits, digits with a point, and either with an exponent, signed or not, are numbers.  */
  lemma Numerals(a: string, b: string, keywords: seq<RuleTable.Word>)
    requires Digits(a) && Digits(b)
    ensures IsOne(a, keywords, Kind.Number)
    ensures IsOne(a + "." + b, keywords, Kind.Number) && IsOne("." + b, keywords, Kind.Number)
    ensures IsOne(a + "_" + b, keywords, Kind.Number)
    ensures IsOne(a + "e" + b, keywords, Kind.Number) && IsOne(a + "E-" + b, keywords, Kind.Number)
  {
    hide IsOne;
    WholeNumber(a, keywords);
    WholeNumber(a + "." + b, keywords);
    WholeNumber("." + b, keywords);
    WholeNumber(a + "_" + b, keywords);
    WholeNumber(a + "e" + b, keywords);
    WholeNumber(a + "E-" + b, keywords);
  }

  /** A query of nothing but a comment has no tokens, and neither has one of nothing but space.  */
  lemma CommentQuery(q: string, keywords: seq<RuleTable.Word>)
    requires IsBlock(q, 0, |q|)
    ensures LexQuery(q, keywords) == Lexeds([EndToken(q)])
  {
    StepIsSpelled(q, 0, Block(|q|));
    assert Lex(q, keywords, After(q, START, 0), |q|) == Lexeds([EndToken(q)]);
  }

  lemma BlankStep(q: string, at: nat)
    requires at < |q| && Spacing(q[at])
    ensures StepAt(q, at) == Blank
  {
    hide StepAt;
    StepIsSpelled(q, at, Blank);
  }

  lemma {:induction false} SpaceQuery(q: string, keywords: seq<RuleTable.Word>, past: Past, at: nat)
    requires at <= |q| && (past.prev.Some? ==> past.prev.value <= at)
    requires forall i :: at <= i < |q| ==> Spacing(q[i])
    ensures Lex(q, keywords, past, at) == Lexeds([EndToken(q)])
    decreases |q| - at
  {
    hide StepAt;
    if at < |q| {
      BlankStep(q, at);
      SpaceQuery(q, keywords, After(q, past, at), at + 1);
    }
  }
}
