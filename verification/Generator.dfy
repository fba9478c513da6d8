/** The generator from its files: grammar text and keyword lists in, a table for the matcher out.  */
module Generator {
  import RuleTable
  import opened Ordering
  import opened Syntax
  import opened Meaning
  import opened Reading
  import opened Rendering
  import opened RoundTrip
  import opened GrammarParser
  import opened KeywordScan
  import opened Preservation
  import opened Compiler
  import opened Generate

  // ---------------------------------------------------------------------------------------------
  // Reading the files

  /** The rules of every file, in order, or the first fault.  */
  ghost function RulesOf(texts: seq<string>): GrammarParser.Result<seq<Rule>> {
    if texts == [] then GrammarParser.Ok([])
    else
      match File(texts[0])
      case Bad(fault) => GrammarParser.Err(fault)
      case Done(rules, _) =>
        match RulesOf(texts[1..])
        case Err(fault) => GrammarParser.Err(fault)
        case Ok(more) => GrammarParser.Ok(rules + more)
  }

  ghost function Joined(rules: seq<Rule>, more: GrammarParser.Result<seq<Rule>>): GrammarParser.Result<seq<Rule>> {
    match more
    case Err(fault) => GrammarParser.Err(fault)
    case Ok(rest) => GrammarParser.Ok(rules + rest)
  }

  method ParseFiles(texts: seq<string>) returns (r: GrammarParser.Result<seq<Rule>>)
    ensures r == RulesOf(texts)
  {
    var rules: seq<Rule> := [];
    assert texts[0..] == texts;
    assert RulesOf(texts).Ok? ==> [] + RulesOf(texts).value == RulesOf(texts).value;
    for i := 0 to |texts|
      invariant RulesOf(texts) == Joined(rules, RulesOf(texts[i..]))
    {
      assert texts[i..][1..] == texts[i + 1..];
      var parser := new Parser(texts[i]);
      var parsed := parser.ParseFile();
      if parsed.Err? {
        return GrammarParser.Err(parsed.fault);
      }
      assert RulesOf(texts[i + 1..]).Ok? ==>
          rules + (parsed.value + RulesOf(texts[i + 1..]).value) == rules + parsed.value + RulesOf(texts[i + 1..]).value;
      rules := rules + parsed.value;
    }
    assert rules + [] == rules;
    return GrammarParser.Ok(rules);
  }

  lemma {:induction false} RulesCanonical(texts: seq<string>)
    requires RulesOf(texts).Ok?
    ensures forall i :: 0 <= i < |RulesOf(texts).value| ==> CanonicalRule(RulesOf(texts).value[i])
  {
    hide CanonicalRule, File;
    if texts != [] {
      FileCanonical(texts[0]);
      RulesCanonical(texts[1..]);
    }
  }

  lemma {:induction false} WordsJoin(a: seq<Rule>, b: seq<Rule>)
    ensures WordsOfRules(a + b) == WordsOfRules(a) + WordsOfRules(b)
  {
    if a == [] {
      assert a + b == b;
    } else {
      WordsJoin(a[1..], b);
      assert (a + b)[1..] == a[1..] + b;
    }
  }

  /** The words the rules of clean files spell are exactly those the scan finds.  */
  lemma {:induction false} AllScansAgree(texts: seq<string>)
    requires RulesOf(texts).Ok? && forall i :: 0 <= i < |texts| ==> Clean(texts[i])
    ensures WordsOfRules(RulesOf(texts).value) == FoundAll(texts)
  {
    hide Clean, File, Found;
    if texts != [] {
      ScansAgree(texts[0]);
      AllScansAgree(texts[1..]);
      WordsJoin(File(texts[0]).value, RulesOf(texts[1..]).value);
    }
  }

  lemma {:induction false} RuleAmong(rules: seq<Rule>, rule: Rule)
    requires rule in rules
    ensures WordsOf(rule.body) <= WordsOfRules(rules)
  {
    if rules[0] != rule {
      RuleAmong(rules[1..], rule);
    }
  }

  // ---------------------------------------------------------------------------------------------
  // Words the table knows

  /** Every body that can be compiled spells only words of the table.  */
  ghost predicate KnowsWords(env: Env) {
    forall n :: n in env.resolved && env.resolved[n].Body? ==> WordsOf(env.resolved[n].body) <= env.words
  }

  lemma {:induction false} ExpandKnows(env: Env, e: Expr, bound: map<string, Form>, limit: nat)
    requires KnowsWords(env) && WordsOf(e) <= env.words
    ensures Expand(env, e, bound, limit) != Meaning.Err(UnknownWord)
    decreases limit, e, 1
  {
    match e
    case Call(name, argument) =>
      ExpandKnows(env, argument, bound, limit);
      var form := Expand(env, argument, bound, limit);
      if limit > 0 && form.Ok? && name in env.bodies && env.bodies[name].parameter.Some?
         && name in env.resolved && env.resolved[name].Body? {
        ExpandKnows(env, env.resolved[name].body, map[env.bodies[name].parameter.value := form.value], limit - 1);
      }
    case Sequence(items) => ExpandAllKnows(env, items, bound, limit);
    case Choice(items) => ExpandAllKnows(env, items, bound, limit);
    case Optional(inner) => ExpandKnows(env, inner, bound, limit);
    case Repeat(inner) => ExpandKnows(env, inner, bound, limit);
    case _ =>
  }

  lemma {:induction false} ExpandAllKnows(env: Env, items: seq<Expr>, bound: map<string, Form>, limit: nat)
    requires KnowsWords(env) && WordsOfAll(items) <= env.words
    ensures ExpandAll(env, items, bound, limit) != Meaning.Err(UnknownWord)
    decreases limit, items, 0
  {
    if items != [] {
      ExpandKnows(env, items[0], bound, limit);
      ExpandAllKnows(env, items[1..], bound, limit);
    }
  }

  lemma {:induction false} TableHolds(keywords: seq<RuleTable.Word>, text: string)
    requires text in TableOf(keywords)
    ensures exists i :: 0 <= i < |keywords| && keywords[i].text == text
  {
    if keywords[|keywords| - 1].text != text {
      TableHolds(keywords[..|keywords| - 1], text);
    }
  }

  /** The table built from clean files knows every word of their rules.  */
  lemma FilesKnowWords(x: Fixed, texts: seq<string>, lists: seq<seq<string>>, keywords: seq<RuleTable.Word>,
                       lines: seq<Overriding>, overriding: map<string, RuleTable.Node>)
    requires RulesOf(texts).Ok? && forall i :: 0 <= i < |texts| ==> Clean(texts[i])
    requires FromFiles(x, RulesOf(texts).value, keywords, lines, overriding)
    requires Classifies(TableOf(keywords), lists, FoundAll(texts))
    ensures KnowsWords(x.env)
  {
    var rules := RulesOf(texts).value;
    AllScansAgree(texts);
    forall n | n in x.env.resolved && x.env.resolved[n].Body?
      ensures WordsOf(x.env.resolved[n].body) <= x.env.words
    {
      assert Resolution(x.env.bodies, overriding, CLASS_RULES, n) == RuleTable.Some(x.env.resolved[n]);
      RuleAmong(rules, x.env.bodies[n]);
      forall w | w in WordsOf(x.env.resolved[n].body) ensures w in x.env.words {
        TableHolds(keywords, w);
      }
    }
  }

  // ---------------------------------------------------------------------------------------------
  // The generator

  datatype Made =
    | Made(outcome: Generate.Outcome)
    | BadLists                    // a keyword list is empty or holds something that is no word
    | BadGrammar(fault: Fault)    // a grammar file does not read
    | TooManyWords                // more words than a keyword number can name

  /** The keyword table of the lists and the scanned words: every word once, in byte order, with its classes.  */
  ghost predicate KeywordsFrom(keywords: seq<RuleTable.Word>, lists: seq<seq<string>>, scanned: set<string>) {
    && Classifies(TableOf(keywords), lists, scanned)
    && Ascending(RuleTable.Spellings(keywords)) && DistinctWords(keywords)
  }

  /** Reads the grammar and the keyword lists and compiles them.  What comes out is a table the matcher can
      run that stands for the rules of the files; and as long as the files are clean, the compiler never
      meets a word the keyword table does not have.  */
  method GenerateGrammar(texts: seq<string>, lists: seq<seq<string>>, lines: seq<Overriding>, memoized: set<string>, limit: nat)
    returns (r: Made, x: Fixed, overriding: map<string, RuleTable.Node>)
    requires |lists| == RuleTable.CLASSES
    ensures r.BadLists? <==> exists k :: 0 <= k < |lists| && !Usable(lists[k])
    ensures r.BadGrammar? ==> RulesOf(texts) == GrammarParser.Err(r.fault)
    ensures r.TooManyWords? ==>
              exists keywords :: KeywordsFrom(keywords, lists, FoundAll(texts)) && |keywords| > RuleTable.NOT_A_KEYWORD
    ensures r.Made? ==> RulesOf(texts).Ok?
    ensures r.Made? && r.outcome.Generated? ==>
              && FromFiles(x, RulesOf(texts).value, x.keywords, lines, overriding)
              && KeywordsFrom(x.keywords, lists, FoundAll(texts))
              && Serves(r.outcome.table, x, memoized, limit)
    ensures r.Made? && r.outcome.Refused? ==>
              exists keywords :: KeywordsFrom(keywords, lists, FoundAll(texts))
                && Deserved(r.outcome.why, x, overriding, RulesOf(texts).value, keywords, lines, memoized, limit)
    ensures r.Made? ==> r.outcome != Refused(BadBody(Unreached))
    ensures r.Made? && (forall i :: 0 <= i < |texts| ==> Clean(texts[i])) ==>
              r.outcome != Refused(BadBody(UnknownWord))
  {
    hide FromFiles, Classifies, Clean, Usable, CanonicalRule, Serves, Deserved, RulesOf, FoundAll, KnowsWords, KeywordsFrom, DistinctWords,
      TableOf, Ascending, NoEmptyList;
    x, overriding := Fixed(Env(map[], map[], {}, {}), map[], [], map[]), map[];
    var words := GrammarLiterals(texts);
    var keywords := KeywordTable(lists, words);
    if keywords.None? {
      return BadLists, x, overriding;
    }
    var parsed := ParseFiles(texts);
    if parsed.Err? {
      return BadGrammar(parsed.fault), x, overriding;
    }
    KeywordsFit(keywords.value, lists, FoundAll(texts));
    if |keywords.value| > RuleTable.NOT_A_KEYWORD {
      return TooManyWords, x, overriding;
    }
    RulesCanonical(texts);
    AllNotEmpty(parsed.value);
    var outcome, fixed, over := GenerateTable(parsed.value, keywords.value, lines, memoized, limit);
    x, overriding := fixed, over;
    if forall i :: 0 <= i < |texts| ==> Clean(texts[i]) {
      NeverUnknown(outcome, x, texts, lists, keywords.value, lines, overriding, memoized, limit);
    }
    KeywordsOf(x, parsed.value, keywords.value, lines, overriding);
    return Made(outcome), x, overriding;
  }

  lemma KeywordsOf(x: Fixed, parsed: seq<Rule>, keywords: seq<RuleTable.Word>, lines: seq<Overriding>,
                   overriding: map<string, RuleTable.Node>)
    ensures FromFiles(x, parsed, keywords, lines, overriding) ==> x.keywords == keywords
  {}

  lemma AllNotEmpty(rules: seq<Rule>)
    requires forall i :: 0 <= i < |rules| ==> CanonicalRule(rules[i])
    ensures forall i :: 0 <= i < |rules| ==> NoEmptyList(rules[i].body)
  {
    forall i | 0 <= i < |rules| ensures NoEmptyList(rules[i].body) {
      CanonicalNotEmpty(rules[i].body);
    }
  }

  /** The table's words are distinct and their classes are classes.  */
  lemma KeywordsFit(keywords: seq<RuleTable.Word>, lists: seq<seq<string>>, scanned: set<string>)
    requires Ascending(RuleTable.Spellings(keywords)) && Classifies(TableOf(keywords), lists, scanned) && |lists| == RuleTable.CLASSES
    ensures KeywordsFrom(keywords, lists, scanned) && DistinctWords(keywords)
    ensures forall i :: 0 <= i < |keywords| ==> forall k :: k in keywords[i].classes ==> k < RuleTable.CLASSES
  {
    hide TableOf, Ascending, Classifies, DistinctWords;
    SpellingsDistinct(keywords);
    forall i | 0 <= i < |keywords| ensures forall k :: k in keywords[i].classes ==> k < RuleTable.CLASSES {
      TableGives(keywords, i);
      ClassesFit(TableOf(keywords), lists, scanned, keywords[i].text);
    }
  }

  lemma ClassesFit(table: map<string, set<nat>>, lists: seq<seq<string>>, scanned: set<string>, text: string)
    requires Classifies(table, lists, scanned) && text in table
    ensures forall k :: k in table[text] ==> k < |lists|
  {
    hide Lists;
    forall k: nat | k in table[text] ensures k < |lists| {
      assert Given(table, text, k);
    }
  }

  lemma SpellingsDistinct(keywords: seq<RuleTable.Word>)
    requires Ascending(RuleTable.Spellings(keywords))
    ensures DistinctWords(keywords)
  {
    AscendingDistinct(RuleTable.Spellings(keywords));
    forall i, j | 0 <= i < j < |keywords| ensures keywords[i].text != keywords[j].text {
      assert RuleTable.Spellings(keywords)[i] != RuleTable.Spellings(keywords)[j];
    }
  }

  lemma {:induction false} TableGives(keywords: seq<RuleTable.Word>, i: nat)
    requires DistinctWords(keywords) && i < |keywords|
    ensures keywords[i].text in TableOf(keywords) && TableOf(keywords)[keywords[i].text] == keywords[i].classes
  {
    if i < |keywords| - 1 {
      TableGives(keywords[..|keywords| - 1], i);
    }
  }

  lemma NeverUnknown(outcome: Generate.Outcome, x: Fixed, texts: seq<string>, lists: seq<seq<string>>, keywords: seq<RuleTable.Word>,
                     lines: seq<Overriding>, overriding: map<string, RuleTable.Node>, memoized: set<string>, limit: nat)
    requires RulesOf(texts).Ok? && forall i :: 0 <= i < |texts| ==> Clean(texts[i])
    requires Classifies(TableOf(keywords), lists, FoundAll(texts))
    requires outcome.Refused? ==>
               Deserved(outcome.why, x, overriding, RulesOf(texts).value, keywords, lines, memoized, limit)
    ensures outcome != Refused(BadBody(UnknownWord))
  {
    hide FromFiles, Classifies, Clean, RulesOf, FoundAll, Expand;
    if outcome == Refused(BadBody(UnknownWord)) {
      FilesKnowWords(x, texts, lists, keywords, lines, overriding);
      var n :| n in x.env.reached && n in x.env.resolved && RuleForm(x.env, n, limit) == Meaning.Err(UnknownWord);
      ExpandKnows(x.env, x.env.resolved[n].body, map[], limit);
    }
  }
}
