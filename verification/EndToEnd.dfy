/** From the grammar's text to the parse tree: what the generated table and the matcher report is what
    the grammar says.  */
module EndToEnd {
  import opened RuleTable
  import opened Peg
  import opened Arena
  import opened MatcherInvariant
  import opened Parse
  import opened Meaning
  import opened Compiler
  import opened Preservation
  import opened Generate
  import Generator
  import KeywordScan
  import opened Reach
  import opened Ordering
  import opened Lexing
  import opened TokenLaws
  import Tokenizer

  /** The grammar a table was generated from, over some tokens.  */
  ghost function GrammarOf(c: Code, x: Fixed, limit: nat, tokens: seq<Token>): (g: Grammar)
    requires Describes(c, x, limit)
  {
    Grammar(map n | n in x.ids :: RuleForm(x.env, n, limit).value, x.keywords, tokens)
  }

  /** A generated table stands for its grammar.  */
  lemma GeneratedStandsFor(t: Table, x: Fixed, limit: nat, tokens: seq<Token>)
    requires TableOk(t) && |t.code.symbols| <= 255 && Describes(t.code, x, limit) && DistinctWords(x.keywords)
    ensures StandsFor(WorldOf(t, tokens, false), x, GrammarOf(t.code, x, limit, tokens))
  {
    hide Represents, RuleForm;
  }

  /** A finding as a parse of everything.  */
  ghost predicate Derives(tokens: seq<Token>, f: Finding, d: Derivation) {
    f == Hit(d.end, [d]) && AtEnd(tokens, d.end)
  }

  /** The arena holds a tree that reads as the derivation.  */
  ghost predicate Shows(c: Code, r: Report, d: Derivation) {
    r.Parsed? && exists t: Tree :: Denotes(r.nodes, r.root, t) && Named(c, t) == d
  }

  /** The report gives a finding: it shows exactly the derivation of everything, and it is an error exactly
      when there is none.  */
  ghost predicate Gives(c: Code, tokens: seq<Token>, f: Finding, r: Report) {
    && (forall d: Derivation :: Shows(c, r, d) <==> Derives(tokens, f, d))
    && (r.SyntaxError? <==> forall d: Derivation :: !Derives(tokens, f, d))
  }

  /** Whenever the grammar's own semantics comes to a finding for a rule, however deep it nests, a parse
      from that rule gives it, unless the parse gives up; and it does not give up on a finding within the
      depth cap.  Compilation, monomorphization, the FIRST filter, the memo, the stack and the shared
      arena all drop out.  */
  lemma ParseIsGrammar(t: Table, x: Fixed, limit: nat, tokens: seq<Token>, name: string, filter: bool,
                       r: Report, fuel: nat)
    requires TableOk(t) && |t.code.symbols| <= 255 && Describes(t.code, x, limit) && DistinctWords(x.keywords)
    requires (filter ==> AllWellKeyed(t.code, tokens)) && name in x.ids && x.ids[name] < |t.code.rules|
    requires Reports(WorldOf(t, tokens, filter), x.ids[name], r)
    requires EvalRule(GrammarOf(t.code, x, limit, tokens), name, 0, fuel).Some?
    requires fuel <= MAX_DEPTH || !r.TooDeep?
    ensures Gives(t.code, tokens, EvalRule(GrammarOf(t.code, x, limit, tokens), name, 0, fuel).value, r)
  {
    hide Gives, Tells, Reports;
    var g := GrammarOf(t.code, x, limit, tokens);
    var w := WorldOf(t, tokens, false);
    var root := x.ids[name];
    GeneratedStandsFor(t, x, limit, tokens);
    RulePreserves(w, x, g, name, 0, fuel);
    ReportIsPlain(t, tokens, root, filter, r, fuel);
    var o := RunNode(w, Node.Rule(root), 0, fuel).value;
    FindingOf(t.code, tokens, o, EvalRule(g, name, 0, fuel).value, r);
  }

  /** A report that tells an outcome gives the finding it reads as.  */
  lemma FindingOf(c: Code, tokens: seq<Token>, o: Peg.Outcome, f: Finding, r: Report)
    requires NamedOutcome(c, Some(o)) == Some(f) && Tells(tokens, o, r)
    ensures Gives(c, tokens, f, r)
  {
    hide Denotes;
    forall tree: Tree | Parses(tokens, o, tree) ensures Derives(tokens, f, Named(c, tree)) {
      assert NamedAll(c, [tree]) == [Named(c, tree)];
    }
    forall d: Derivation | Derives(tokens, f, d)
      ensures exists tree: Tree :: Parses(tokens, o, tree) && Named(c, tree) == d
    {
      assert |o.forest| == 1 && o.forest == [o.forest[0]];
      var tree := o.forest[0];
      assert NamedAll(c, [tree]) == [Named(c, tree)];
    }
  }

  /** When the filter is off, or the table has no left recursion, a parse that does not give up gives what
      the grammar's semantics comes to: there is always a finding for it to give.  */
  lemma AnswerIsFinding(t: Table, x: Fixed, limit: nat, tokens: seq<Token>, name: string, filter: bool, r: Report)
    returns (fuel: nat)
    requires TableOk(t) && |t.code.symbols| <= 255 && Describes(t.code, x, limit) && DistinctWords(x.keywords)
    requires (filter ==> AllWellKeyed(t.code, tokens)) && name in x.ids && x.ids[name] < |t.code.rules|
    requires Reports(WorldOf(t, tokens, filter), x.ids[name], r) && !r.TooDeep? && (!filter || Rankable(t))
    ensures EvalRule(GrammarOf(t.code, x, limit, tokens), name, 0, fuel).Some?
    ensures Gives(t.code, tokens, EvalRule(GrammarOf(t.code, x, limit, tokens), name, 0, fuel).value, r)
  {
    hide Gives, Tells, Reports, Rankable, AllWellKeyed;
    var w := WorldOf(t, tokens, false);
    var root := x.ids[name];
    if filter {
      fuel := RankedReportIsPlain(t, tokens, root, filter, r);
    } else {
      UnfilteredAnswers(t, tokens, root, r);
      fuel :| RunNode(w, Node.Rule(root), 0, fuel).Some?;
    }
    GeneratedStandsFor(t, x, limit, tokens);
    RulePreserves(w, x, GrammarOf(t.code, x, limit, tokens), name, 0, fuel);
    ParseIsGrammar(t, x, limit, tokens, name, filter, r, fuel);
  }

  // ---------------------------------------------------------------------------------------------
  // From query text

  datatype Query = Unreadable(why: Trouble) | Read(report: Report)

  /** The tokenizer's error, or what the matcher reports of the tokens.  */
  ghost predicate Answers(t: Table, query: string, root: nat, filter: bool, r: Query)
    requires TableOk(t) && root < |t.code.rules|
  {
    match LexQuery(query, t.code.keywords)
    case Stopped(why) => r == Unreadable(why)
    case Lexeds(out) => r.Read? && Reports(WorldOf(t, TokensOf(out), filter), root, r.report)
  }

  /** Parses a query from a rule: tokens first, then the matcher.  */
  method ParseQuery(t: Table, query: string, root: nat, filter: bool) returns (r: Query)
    requires TableOk(t) && root < |t.code.rules|
    requires Ascending(Spellings(t.code.keywords))
    ensures Answers(t, query, root, filter, r)
  {
    hide Ascending, TableOk, Reports, Lex;
    var lexed := Tokenizer.Tokenize(query, t.code.keywords);
    if lexed.Stopped? {
      return Unreadable(lexed.why);
    }
    var report := ParseTokens(t, TokensOf(lexed.out), root, filter);
    return Read(report);
  }

  /** What the filter needs of a query: symbols that the tokenizer hands over as punctuation, and no lone
      dollar while the grammar has a dollar symbol.  */
  ghost predicate Filterable(c: Code, out: seq<Lexed>) {
    SymbolsFit(c.symbols) && ("$" in c.symbols ==> forall k :: 0 <= k < |out| ==> !IsLone(out[k].token))
  }

  /** From query text to tree: for a generated table, the report on a query gives the finding that the grammar
      comes to for its tokens, however deep, unless it gives up; and it does not give up within the cap.  */
  lemma QueryIsGrammar(t: Table, x: Fixed, limit: nat, query: string, out: seq<Lexed>, name: string, filter: bool,
                       r: Report, fuel: nat)
    requires TableOk(t) && |t.code.symbols| <= 255 && Describes(t.code, x, limit) && DistinctWords(x.keywords)
    requires LexQuery(query, t.code.keywords) == Lexeds(out) && (filter ==> Filterable(t.code, out))
    requires name in x.ids && x.ids[name] < |t.code.rules|
    requires Reports(WorldOf(t, TokensOf(out), filter), x.ids[name], r)
    requires EvalRule(GrammarOf(t.code, x, limit, TokensOf(out)), name, 0, fuel).Some?
    requires fuel <= MAX_DEPTH || !r.TooDeep?
    ensures Gives(t.code, TokensOf(out), EvalRule(GrammarOf(t.code, x, limit, TokensOf(out)), name, 0, fuel).value, r)
  {
    hide Describes, Reports, Lex, EvalRule, DistinctWords, AllWellKeyed, Filterable, Gives;
    if filter {
      FilterableFits(t.code, out);
      QueryKeyed(t, query, out);
    }
    ParseIsGrammar(t, x, limit, TokensOf(out), name, filter, r, fuel);
  }

  /** A query is keyed as the filter needs exactly when it has no lone dollar that is also a symbol.  */
  lemma QueryKeyed(t: Table, query: string, out: seq<Lexed>)
    requires TableOk(t) && |t.code.symbols| <= 255 && SymbolsFit(t.code.symbols)
    requires LexQuery(query, t.code.keywords) == Lexeds(out)
    ensures AllWellKeyed(t.code, TokensOf(out)) <==> Filterable(t.code, out)
  {
    hide Lex, SymbolsFit, IsLone, AllWellKeyed;
    TokensKeyed(t.code, query);
    var tokens := TokensOf(out);
    assert forall k :: 0 <= k < |out| ==> tokens[k] == out[k].token && tokens[k] in tokens;
    assert forall token :: token in tokens ==> exists k :: 0 <= k < |tokens| && tokens[k] == token;
  }

  /** What an answer has to be.  Whatever finding the grammar comes to, the report gives it, unless it gives
      up on one past the cap; and without the filter or without left recursion there is a finding to give
      whenever it does not give up.  */
  ghost predicate Agrees(t: Table, x: Fixed, limit: nat, query: string, name: string, filter: bool, r: Query)
    requires TableOk(t) && Describes(t.code, x, limit)
  {
    match LexQuery(query, x.keywords)
    case Stopped(why) => r == Unreadable(why)
    case Lexeds(out) =>
      var tokens := TokensOf(out);
      var g := GrammarOf(t.code, x, limit, tokens);
      && r.Read?
      && (forall fuel: nat :: EvalRule(g, name, 0, fuel).Some? && (fuel <= MAX_DEPTH || !r.report.TooDeep?) ==>
            Gives(t.code, tokens, EvalRule(g, name, 0, fuel).value, r.report))
      && (!r.report.TooDeep? && (!filter || Rankable(t)) ==> exists fuel: nat :: EvalRule(g, name, 0, fuel).Some?)
  }

  /** Nothing stands in the way of the filter in this query.  */
  ghost predicate Suits(c: Code, query: string, filter: bool) {
    filter && LexQuery(query, c.keywords).Lexeds? ==> Filterable(c, LexQuery(query, c.keywords).out)
  }

  /** With a table that serves a grammar, the answer to a query is what the grammar gives its tokens from the
      root.  */
  lemma AnswerAgrees(lists: seq<seq<string>>, scanned: set<string>, memoized: set<string>, limit: nat, t: Table, x: Fixed,
                     query: string, name: string, filter: bool, r: Query)
    requires Generator.KeywordsFrom(x.keywords, lists, scanned) && Serves(t, x, memoized, limit)
    requires |t.code.symbols| <= 255 && Suits(t.code, query, filter)
    requires name == ROOT || name == STATEMENT_ROOT
    requires Answers(t, query, if name == ROOT then t.program else t.topLevel, filter, r)
    ensures Agrees(t, x, limit, query, name, filter, r)
  {
    hide Reports, Lex, EvalRule, TableOk, Represents, RuleForm, Gives, Filterable, Ascending, Rankable, AllWellKeyed;
    var lexed := LexQuery(query, x.keywords);
    if lexed.Lexeds? {
      var tokens := TokensOf(lexed.out);
      var g := GrammarOf(t.code, x, limit, tokens);
      forall fuel: nat | EvalRule(g, name, 0, fuel).Some? && (fuel <= MAX_DEPTH || !r.report.TooDeep?)
        ensures Gives(t.code, tokens, EvalRule(g, name, 0, fuel).value, r.report)
      {
        QueryIsGrammar(t, x, limit, query, lexed.out, name, filter, r.report, fuel);
      }
      if !r.report.TooDeep? && (!filter || Rankable(t)) {
        if filter {
          FilterableFits(t.code, lexed.out);
          QueryKeyed(t, query, lexed.out);
        }
        var fuel := AnswerIsFinding(t, x, limit, tokens, name, filter, r.report);
      }
    }
  }

  lemma FilterableFits(c: Code, out: seq<Lexed>)
    requires Filterable(c, out)
    ensures SymbolsFit(c.symbols)
  {}

  /** Generates a table from files and parses a query with it, as a program or as one statement.  */
  method ParseWithFiles(texts: seq<string>, lists: seq<seq<string>>, lines: seq<Overriding>, memoized: set<string>,
                        limit: nat, query: string, name: string, filter: bool)
    returns (made: Generator.Made, x: Fixed, overriding: map<string, Node>, r: Option<Query>)
    requires |lists| == CLASSES && (name == ROOT || name == STATEMENT_ROOT)
    ensures made.Made? && made.outcome.Generated? ==>
              var t := made.outcome.table;
              && Generator.RulesOf(texts).Ok?
              && FromFiles(x, Generator.RulesOf(texts).value, x.keywords, lines, overriding)
              && Serves(t, x, memoized, limit)
              && (|t.code.symbols| <= 255 && Suits(t.code, query, filter) ==>
                    r.Some? && Agrees(t, x, limit, query, name, filter, r.value))
  {
    hide Reports, Lex, EvalRule, TableOk, Represents, RuleForm, Suits, FromFiles, Ascending, Agrees;
    r := None;
    made, x, overriding := Generator.GenerateGrammar(texts, lists, lines, memoized, limit);
    if made.Made? && made.outcome.Generated? {
      var t := made.outcome.table;
      var answer := ParseQuery(t, query, if name == ROOT then t.program else t.topLevel, filter);
      r := Some(answer);
      if |t.code.symbols| <= 255 && Suits(t.code, query, filter) {
        AnswerAgrees(lists, KeywordScan.FoundAll(texts), memoized, limit, t, x, query, name, filter, answer);
      }
    }
  }
}
