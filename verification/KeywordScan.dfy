/** The keyword table: the classes the lists give a word, and the words a line scan of the grammar finds.  The
    scan is not the parser, and agrees with it all the same.  */
module KeywordScan {
  import RuleTable
  import opened Ordering
  import opened Syntax
  import opened Meaning
  import opened Reading

  // ---------------------------------------------------------------------------------------------
  // What the line scan finds

  /** What is left of a line, up to a comment.  */
  function LineOf(s: string): (line: string) {
    if s == [] || s[0] == '\n' || s[0] == '#' then [] else [s[0]] + LineOf(s[1..])
  }

  function NextLine(s: string): (r: string)
    ensures |r| <= |s| && (s != [] ==> |r| < |s|)
  {
    if s == [] then [] else if s[0] == '\n' then s[1..] else NextLine(s[1..])
  }

  /** How far it is to the closing quote, stepping over what a backslash escapes, which may be past the end.  */
  function EndOf(line: string): (n: nat)
    ensures n <= |line| + 1
  {
    if line == [] || line[0] == '\'' then 0
    else if line[0] == '\\' then (if |line| == 1 then 2 else 2 + EndOf(line[2..]))
    else 1 + EndOf(line[1..])
  }

  /** The lower-cased word a quoted text is, or nothing.  */
  function Spelled(text: string): (words: set<string>) {
    if text != [] && IsWord(text) then {Lower(text)} else {}
  }

  function WordsIn(line: string): (words: set<string>) {
    if line == [] then {}
    else if line[0] != '\'' then WordsIn(line[1..])
    else
      var n := EndOf(line[1..]);
      if n >= |line| then {}
      else Spelled(line[1..n + 1]) + if n + 2 <= |line| then WordsIn(line[n + 2..]) else {}
  }

  /** Every word the scan finds in a text.  */
  function Found(s: string): (words: set<string>)
    decreases |s|
  {
    if s == [] then {} else WordsIn(LineOf(s)) + Found(NextLine(s))
  }

  // ---------------------------------------------------------------------------------------------
  // The scan

  /** Every element of `list`.  */
  ghost function All(list: seq<string>): set<string> {
    set w | w in list
  }

  lemma WordsAtEnd(line: string)
    ensures WordsIn(line[|line|..]) == {}
  {}

  lemma WordsPast(line: string, at: nat)
    requires at < |line| && line[at] != '\''
    ensures WordsIn(line[at..]) == WordsIn(line[at + 1..])
  {
    assert line[at..][1..] == line[at + 1..];
  }

  lemma WordsQuoted(line: string, at: nat, end: nat)
    requires at < |line| && line[at] == '\'' && end == at + 1 + EndOf(line[at + 1..])
    ensures WordsIn(line[at..])
         == if end > |line| then {} else Spelled(line[at + 1..end]) + if end < |line| then WordsIn(line[end + 1..]) else {}
  {
    assert line[at..][1..] == line[at + 1..];
    if end <= |line| {
      assert line[at..][1..end - at] == line[at + 1..end];
      assert end < |line| ==> line[at..][end - at + 1..] == line[end + 1..];
    }
  }

  method ScanLine(line: string) returns (words: seq<string>)
    ensures All(words) == WordsIn(line)
  {
    hide WordsIn, EndOf;
    WordsAtEnd(line);
    words := [];
    var at := 0;
    while at < |line|
      invariant 0 <= at <= |line| + 1
      invariant WordsIn(line) == All(words) + if at <= |line| then WordsIn(line[at..]) else {}
    {
      if line[at] != '\'' {
        WordsPast(line, at);
        at := at + 1;
        continue;
      }
      var start := at + 1;
      var end := FindEnd(line, start);
      WordsQuoted(line, at, end);
      if end > |line| {
        at := |line|;
        continue;
      }
      var body := line[start..end];
      if body != [] && IsWord(body) {
        words := words + [Lower(body)];
      }
      at := end + 1;
    }
  }

  method FindEnd(line: string, start: nat) returns (end: nat)
    requires start <= |line|
    ensures end == start + EndOf(line[start..])
  {
    end := start;
    while end < |line| && line[end] != '\''
      invariant start <= end <= |line| + 1
      invariant start + EndOf(line[start..]) == if end <= |line| then end + EndOf(line[end..]) else end
    {
      assert line[end..][1..] == line[end + 1..];
      assert end + 2 <= |line| ==> line[end..][2..] == line[end + 2..];
      end := end + if line[end] == '\\' then 2 else 1;
    }
  }

  method ScanText(text: string) returns (words: seq<string>)
    ensures All(words) == Found(text)
  {
    words := [];
    var rest := text;
    while rest != []
      invariant Found(text) == All(words) + Found(rest)
      decreases |rest|
    {
      var line := ScanLine(LineOf(rest));
      words := words + line;
      rest := NextLine(rest);
    }
  }

  /** The words of every file.  */
  ghost function FoundAll(texts: seq<string>): set<string> {
    if texts == [] then {} else Found(texts[0]) + FoundAll(texts[1..])
  }

  method GrammarLiterals(texts: seq<string>) returns (words: seq<string>)
    ensures All(words) == FoundAll(texts)
  {
    words := [];
    for i := 0 to |texts|
      invariant FoundAll(texts) == All(words) + FoundAll(texts[i..])
    {
      var more := ScanText(texts[i]);
      assert texts[i..][1..] == texts[i + 1..];
      words := words + more;
    }
  }

  // ---------------------------------------------------------------------------------------------
  // Texts the two read alike

  /** Inside a literal: nothing that ends a line for the scan, and no letter hidden behind a backslash.  */
  predicate PlainText(s: string) {
    if s == [] || s[0] == '\'' then true
    else if s[0] == '\\' then
      |s| > 1 ==> s[1] != '#' && s[1] != '\n' && !IsLetter(s[1]) && s[1] != '_' && PlainText(s[2..])
    else s[0] != '#' && s[0] != '\n' && PlainText(s[1..])
  }

  /** Every literal is plain, and no character class has a quote or a comment sign in it.  */
  predicate Clean(s: string)
    decreases |s|
  {
    if s == [] then true
    else if s[0] == '#' then Clean(Line(s[1..]))
    else if s[0] == '\'' then
      PlainText(s[1..]) && (Text(s[1..]).Done? ==> Clean(Text(s[1..]).rest))
    else if s[0] == '[' then
      ClassText(s).Done? ==> '\'' !in ClassText(s).value && '#' !in ClassText(s).value && Clean(ClassText(s).rest)
    else Clean(s[1..])
  }

  lemma SkipOne(s: string)
    requires s != [] && s[0] != '\'' && s[0] != '#'
    ensures Found(s) == Found(s[1..])
  {
    if s[0] != '\n' {
      assert LineOf(s)[1..] == LineOf(s[1..]);
      assert WordsIn(LineOf(s)) == WordsIn(LineOf(s[1..]));
      if s[1..] == [] {
        assert LineOf([]) == [] && WordsIn([]) == {} && NextLine(s) == [];
      }
    } else {
      assert WordsIn([]) == {} && NextLine(s) == s[1..];
    }
  }

  lemma {:induction false} LineThenNext(s: string)
    ensures Found(Line(s)) == Found(NextLine(s))
  {
    if s != [] && s[0] != '\n' {
      LineThenNext(s[1..]);
    } else if s != [] {
      SkipOne(s);
    }
  }

  lemma SkipComment(s: string)
    requires Starts(s, '#')
    ensures Found(s) == Found(Line(s[1..]))
  {
    LineThenNext(s[1..]);
  }

  lemma {:induction false} SkipSpaces(s: string)
    requires Clean(s)
    ensures Clean(Space(s)) && Found(Space(s)) == Found(s)
    decreases |s|
  {
    hide Found;
    if s != [] && White(s[0]) {
      SkipOne(s);
      SkipSpaces(s[1..]);
    } else if s != [] && s[0] == '#' {
      SkipComment(s);
      SkipSpaces(Line(s[1..]));
    }
  }

  lemma {:induction false} SkipRun(s: string)
    requires Clean(s)
    ensures Clean(s[NameRun(s)..]) && Found(s[NameRun(s)..]) == Found(s)
  {
    hide Found;
    if s != [] && NameChar(s[0]) {
      SkipOne(s);
      SkipRun(s[1..]);
      assert s[NameRun(s)..] == s[1..][NameRun(s[1..])..];
    } else {
      assert s[NameRun(s)..] == s;
    }
  }

  lemma SkipName(s: string)
    requires Clean(s)
    ensures Clean(s[NameLength(s)..]) && Found(s[NameLength(s)..]) == Found(s)
  {
    hide Found, Clean;
    if Starts(s, '%') {
      CleanOne(s);
      SkipOne(s);
      SkipRun(s[1..]);
      assert s[NameLength(s)..] == if NameRun(s[1..]) == 0 then s else s[1..][NameRun(s[1..])..];
    } else {
      SkipRun(s);
    }
  }

  lemma CleanOne(s: string)
    requires Clean(s) && s != [] && s[0] != '\'' && s[0] != '#' && s[0] != '['
    ensures Clean(s[1..])
  {}

  /** Past one character that is neither a quote nor the start of a comment or a class.  */
  lemma Step(s: string)
    requires Clean(s) && s != [] && s[0] != '\'' && s[0] != '#' && s[0] != '['
    ensures Clean(s[1..]) && Found(s[1..]) == Found(s)
  {
    hide Found;
    SkipOne(s);
  }

  lemma {:induction false} SkipBody(s: string)
    requires ClassBody(s).Done? && '\'' !in ClassBody(s).value && '#' !in ClassBody(s).value
    ensures Found(ClassBody(s).rest) == Found(s)
    decreases |s|
  {
    hide Found, ClassBody;
    ClassUnfolds(s);
    SkipBodyChars(s);
    if s[0] == '\\' {
      SkipBody(s[2..]);
    } else if s[0] != ']' {
      SkipBody(s[1..]);
    }
  }

  lemma SkipBodyChars(s: string)
    requires ClassBody(s).Done? && '\'' !in ClassBody(s).value && '#' !in ClassBody(s).value
    ensures s != []
    ensures s[0] != '\\' ==> Found(s) == Found(s[1..])
    ensures s[0] == '\\' ==> |s| >= 2 && Found(s) == Found(s[2..])
  {
    hide Found, ClassBody;
    ClassUnfolds(s);
    var text := ClassBody(s).value;
    assert text[0] == s[0];
    assert s[0] in text;
    SkipOne(s);
    if s[0] == '\\' {
      assert text[1] == s[1];
      assert s[1] in text;
      SkipOne(s[1..]);
      assert s[1..][1..] == s[2..];
    }
  }

  lemma SkipClass(s: string)
    requires Clean(s) && Starts(s, '[') && ClassText(s).Done?
    ensures Clean(ClassText(s).rest) && Found(ClassText(s).rest) == Found(s)
  {
    hide Found, ClassBody;
    var body := ClassBody(s[1..]);
    assert forall c :: c in body.value ==> c in ClassText(s).value;
    SkipOne(s);
    SkipBody(s[1..]);
    if Starts(body.rest, 'i') {
      SkipOne(body.rest);
    }
  }

  // ---------------------------------------------------------------------------------------------
  // Literals

  /** On a plain literal the scan stops at the quote the parser stops at, and a word reads the same.  */
  lemma {:induction false} SameEnd(s: string)
    requires PlainText(s) && Text(s).Done?
    ensures var n := EndOf(LineOf(s));
            && n < |LineOf(s)| && n < |s| && s[n + 1..] == Text(s).rest
            && LineOf(s)[n + 1..] == LineOf(Text(s).rest)
            && NextLine(s) == NextLine(Text(s).rest)
            && (IsWord(Text(s).value) || IsWord(LineOf(s)[..n]) ==> LineOf(s)[..n] == Text(s).value)
    decreases |s|
  {
    hide Text, IsWord;
    TextUnfolds(s);
    if s[0] == '\'' {
      assert LineOf(s) == [s[0]] + LineOf(s[1..]);
    } else if s[0] == '\\' {
      SameEnd(s[2..]);
      LineTwo(s);
      EscapedIsNoWord(s);
      EndStep(LineOf(s), 2);
      SlashIsNoWord(LineOf(s)[..EndOf(LineOf(s))]);
    } else {
      SameEnd(s[1..]);
      assert LineOf(s)[1..] == LineOf(s[1..]);
      var line := LineOf(s[1..]);
      WordFirst(s[0], Text(s[1..]).value);
      WordFirst(s[0], line[..EndOf(line)]);
      EndStep(LineOf(s), 1);
    }
  }

  lemma EndStep(line: string, step: nat)
    requires line != [] && line[0] != '\'' && step == (if line[0] == '\\' then 2 else 1) && step <= |line|
    ensures EndOf(line) == step + EndOf(line[step..])
    ensures EndOf(line) < |line| ==>
              && line[..EndOf(line)] == line[..step] + line[step..][..EndOf(line[step..])]
              && line[EndOf(line) + 1..] == line[step..][EndOf(line[step..]) + 1..]
  {}

  lemma LineTwo(s: string)
    requires |s| > 1 && s[0] == '\\' && s[1] != '#' && s[1] != '\n'
    ensures |LineOf(s)| == 2 + |LineOf(s[2..])| && LineOf(s)[2..] == LineOf(s[2..]) && NextLine(s) == NextLine(s[2..])
  {
    assert s[1..][1..] == s[2..];
    assert LineOf(s) == [s[0]] + ([s[1]] + LineOf(s[2..]));
  }

  lemma WordFirst(c: char, text: string)
    ensures IsWord([c] + text) ==> IsWord(text)
  {
    assert forall i :: 0 <= i < |text| ==> text[i] == ([c] + text)[i + 1];
  }

  lemma SlashIsNoWord(text: string)
    requires Starts(text, '\\')
    ensures !IsWord(text)
  {}

  lemma EscapedIsNoWord(s: string)
    requires PlainText(s) && Starts(s, '\\') && Text(s).Done?
    ensures !IsWord(Text(s).value)
  {
    TextUnfolds(s);
    assert Text(s).value[0] == s[1];
  }

  lemma FoundIs(s: string)
    ensures Found(s) == WordsIn(LineOf(s)) + Found(NextLine(s))
  {
    assert s == [] ==> LineOf(s) == [] && WordsIn([]) == {} && NextLine(s) == [];
  }

  /** The words of a line that starts with a closed quote.  */
  lemma QuoteFirst(line: string, n: nat)
    requires n == EndOf(line) && n < |line|
    ensures WordsIn(['\''] + line) == Spelled(line[..n]) + WordsIn(line[n + 1..])
  {
    hide EndOf, IsWord;
    var quoted := ['\''] + line;
    assert quoted[1..] == line;
    assert quoted[1..n + 1] == line[..n] && quoted[n + 2..] == line[n + 1..];
  }

  /** What is found is a literal's word and what is found after it.  */
  lemma SkipLiteral(s: string)
    requires Clean(s) && Starts(s, '\'') && Text(s[1..]).Done?
    ensures Clean(Text(s[1..]).rest)
    ensures Found(s) == Spelled(Text(s[1..]).value) + Found(Text(s[1..]).rest)
  {
    hide Text, IsWord, Clean, PlainText, EndOf, Found, WordsIn;
    CleanLiteral(s);
    var t := s[1..];
    var rest := Text(t).rest;
    SameEnd(t);
    assert LineOf(s) == ['\''] + LineOf(t) && NextLine(s) == NextLine(t);
    QuoteFirst(LineOf(t), EndOf(LineOf(t)));
    FoundIs(s);
    FoundIs(rest);
  }

  lemma CleanLiteral(s: string)
    requires Clean(s) && Starts(s, '\'') && Text(s[1..]).Done?
    ensures PlainText(s[1..]) && Clean(Text(s[1..]).rest)
  {}

  // ---------------------------------------------------------------------------------------------
  // The parser and the scan find the same words

  /** The lower-cased words an expression spells.  */
  ghost function WordsOf(e: Expr): set<string> {
    match e
    case Literal(text) => Spelled(text)
    case Call(_, argument) => WordsOf(argument)
    case Sequence(items) => WordsOfAll(items)
    case Choice(items) => WordsOfAll(items)
    case Optional(inner) => WordsOf(inner)
    case Repeat(inner) => WordsOf(inner)
    case Not(inner) => WordsOf(inner)
    case Capture(inner) => WordsOf(inner)
    case _ => {}
  }

  ghost function WordsOfAll(items: seq<Expr>): set<string> {
    if items == [] then {} else WordsOf(items[0]) + WordsOfAll(items[1..])
  }

  /** What is found where something was read is the words it spells and what is found in the rest, which is as
      clean.  */
  ghost predicate Heard(s: string, words: set<string>, rest: string) {
    Clean(rest) && Found(s) == words + Found(rest)
  }

  lemma {:induction false} EnclosedHeard(s: string, close: char)
    requires Clean(s) && Enclosed(s, close).Done? && (close == ')' || close == '>')
    ensures Heard(s, WordsOf(Enclosed(s, close).value), Enclosed(s, close).rest)
    decreases |s|, 7
  {
    hide Choices, Clean, Found, Space;
    ChoicesHeard(s);
    SkipSpaces(Choices(s).rest);
    Step(Space(Choices(s).rest));
  }

  lemma {:induction false} PrimaryHeard(s: string)
    requires Clean(s) && Primary(s).Done?
    ensures Heard(s, WordsOf(Primary(s).value), Primary(s).rest)
    decreases |s|, 1
  {
    hide Enclosed, ClassText, NameLength, Text, Clean, Found, Spelled;
    if Starts(s, '\'') {
      SkipLiteral(s);
    } else if Starts(s, '[') {
      SkipClass(s);
    } else if Starts(s, '(') {
      Step(s);
      EnclosedHeard(s[1..], ')');
    } else if Starts(s, '<') {
      Step(s);
      EnclosedHeard(s[1..], '>');
    } else {
      SkipName(s);
      var after := s[NameLength(s)..];
      if Starts(after, '(') {
        Step(after);
        assert after[1..] == s[NameLength(s) + 1..];
        EnclosedHeard(after[1..], ')');
      }
    }
  }

  lemma {:induction false} SuffixedHeard(s: string)
    requires Clean(s) && Suffixed(s).Done?
    ensures Heard(s, WordsOf(Suffixed(s).value), Suffixed(s).rest)
    decreases |s|, 2
  {
    hide Primary, Clean, Found;
    PrimaryHeard(s);
    var rest := Primary(s).rest;
    if Starts(rest, '?') || Starts(rest, '+') || Starts(rest, '*') {
      Step(rest);
    }
  }

  lemma {:induction false} PrefixedHeard(s: string)
    requires Clean(s) && Prefixed(s).Done?
    ensures Heard(s, WordsOf(Prefixed(s).value), Prefixed(s).rest)
    decreases |s|, 3
  {
    hide Suffixed, Clean, Found, Space;
    if Starts(s, '!') {
      Step(s);
      SkipSpaces(s[1..]);
      SuffixedHeard(Space(s[1..]));
    } else {
      SuffixedHeard(s);
    }
  }

  lemma {:induction false} ItemsHeard(s: string)
    requires Clean(s) && Items(s).Done?
    ensures Heard(s, WordsOfAll(Items(s).value), Items(s).rest)
    decreases |s|, 4
  {
    hide Prefixed, Clean, Found, Space, AtRuleStart;
    SkipSpaces(s);
    var t := Space(s);
    if !Stops(t) {
      PrefixedHeard(t);
      ItemsHeard(Prefixed(t).rest);
      assert Items(s).value[1..] == Items(Prefixed(t).rest).value;
    }
  }

  lemma {:induction false} SequencesHeard(s: string)
    requires Clean(s) && Sequences(s).Done?
    ensures Heard(s, WordsOf(Sequences(s).value), Sequences(s).rest)
    decreases |s|, 5
  {
    hide Items, Clean, Found;
    ItemsHeard(s);
    OneOrMore(Items(s).value);
  }

  /** A list of one spells what it holds.  */
  lemma OneOrMore(items: seq<Expr>)
    requires items != []
    ensures WordsOf(SequenceOf(items)) == WordsOfAll(items) && WordsOf(ChoiceOf(items)) == WordsOfAll(items)
  {
    if |items| == 1 {
      assert items[1..] == [] && WordsOfAll([]) == {};
    }
  }

  lemma {:induction false} BranchesHeard(s: string)
    requires Clean(s) && Branches(s).Done?
    ensures Heard(s, WordsOfAll(Branches(s).value), Branches(s).rest)
    decreases |s|, 4
  {
    hide Sequences, Clean, Found, Space;
    SkipSpaces(s);
    var t := Space(s);
    if Starts(t, '/') {
      Step(t);
      SequencesHeard(t[1..]);
      BranchesHeard(Sequences(t[1..]).rest);
      assert Branches(s).value[1..] == Branches(Sequences(t[1..]).rest).value;
    }
  }

  lemma {:induction false} ChoicesHeard(s: string)
    requires Clean(s) && Choices(s).Done?
    ensures Heard(s, WordsOf(Choices(s).value), Choices(s).rest)
    decreases |s|, 6
  {
    hide Sequences, Branches, Clean, Found;
    SequencesHeard(s);
    var first := Sequences(s);
    BranchesHeard(first.rest);
    var all := [first.value] + Branches(first.rest).value;
    assert all[1..] == Branches(first.rest).value;
    OneOrMore(all);
  }

  lemma ParameterHeard(s: string)
    requires Clean(s) && Parameter(s).Done?
    ensures Heard(s, {}, Parameter(s).rest)
  {
    hide Clean, Found, Space, NameLength;
    if Starts(s, '(') {
      Step(s);
      SkipSpaces(s[1..]);
      var t := Space(s[1..]);
      SkipName(t);
      SkipSpaces(t[NameLength(t)..]);
      var u := Space(t[NameLength(t)..]);
      Step(u);
      SkipSpaces(u[1..]);
    }
  }

  lemma RuleHeard(s: string)
    requires Clean(s) && RuleText(s).Done?
    ensures Heard(s, WordsOf(RuleText(s).value.body), RuleText(s).rest)
  {
    hide Clean, Found, Space, NameLength, Parameter, Choices;
    SkipName(s);
    SkipSpaces(s[NameLength(s)..]);
    var t := Space(s[NameLength(s)..]);
    ParameterHeard(t);
    var u := Parameter(t).rest;
    Step(u);
    Step(u[1..]);
    assert u[1..][1..] == u[2..];
    ChoicesHeard(u[2..]);
  }

  ghost function WordsOfRules(rules: seq<Rule>): set<string> {
    if rules == [] then {} else WordsOf(rules[0].body) + WordsOfRules(rules[1..])
  }

  lemma NothingFound()
    ensures Found([]) == {}
  {}

  /** The words a clean file's rules spell are exactly those the scan finds in it.  */
  lemma {:induction false} ScansAgree(s: string)
    requires Clean(s) && File(s).Done?
    ensures WordsOfRules(File(s).value) == Found(s)
    decreases |s|
  {
    hide RuleText, Clean, Found, Space;
    SkipSpaces(s);
    var t := Space(s);
    if t == [] {
      NothingFound();
    } else {
      RuleHeard(t);
      ScansAgree(RuleText(t).rest);
      assert File(s).value[1..] == File(RuleText(t).rest).value;
    }
  }

  const ESCAPED: string := "'\\b'"
  const ESCAPED_RULE: string := "A<-'\\b'"

  lemma EscapedReads()
    ensures Text(ESCAPED[1..]) == Done("b", "") && Choices(ESCAPED) == Done(Literal("b"), "")
  {
    var s := ESCAPED;
    assert s[1..] == "\\b'";
    TextUnfolds("'");
    TextUnfolds("\\b'");
    assert "\\b'"[2..] == "'" && "'"[1..] == "";
    PrependLast("b", "");
    assert Space(s) == s && !Stops(s);
    assert Suffixed(s) == Done(Literal("b"), "");
    assert Prefixed(s) == Done(Literal("b"), "");
    var none: seq<Expr> := [];
    assert Items("") == Done(none, "") && [Literal("b")] + none == [Literal("b")];
    assert Items(s) == Done([Literal("b")], "");
    assert Branches("") == Done(none, "");
  }

  lemma EscapedRuleReads()
    ensures File(ESCAPED_RULE) == Done([Rule.Rule("A", RuleTable.None, Literal("b"))], "")
  {
    hide Choices;
    var s := ESCAPED_RULE;
    EscapedReads();
    assert NameRun(s[1..]) == 0 && NameLength(s) == 1 && s[..1] == "A";
    assert Space(s) == s && Space(s[1..]) == s[1..];
    assert s[1..][2..] == ESCAPED;
    assert RuleText(s) == Done(Rule.Rule("A", RuleTable.None, Literal("b")), "");
    assert File("") == Done([], "");
    assert [Rule.Rule("A", RuleTable.None, Literal("b"))] + [] == [Rule.Rule("A", RuleTable.None, Literal("b"))];
  }

  lemma EscapedNotFound()
    ensures WordsIn(ESCAPED) == {}
  {
    var s := ESCAPED;
    assert s[1..] == "\\b'" && "\\b'"[2..] == "'";
    assert EndOf("'") == 0 && EndOf("\\b'") == 2;
    assert s[1..3] == "\\b" && !IsWord("\\b") by { assert "\\b"[0] == '\\'; }
    assert s[4..] == "" && WordsIn("") == {};
  }

  /** Text without line breaks or comments is one line.  */
  lemma {:induction false} OneLine(s: string)
    requires '\n' !in s && '#' !in s
    ensures LineOf(s) == s && NextLine(s) == []
  {
    if s != [] {
      OneLine(s[1..]);
    }
  }

  lemma EscapedRuleNotFound()
    ensures Found(ESCAPED_RULE) == {}
  {
    hide EndOf, Spelled, LineOf, NextLine;
    var s := ESCAPED_RULE;
    OneLine(s);
    EscapedNotFound();
    assert s[1..] == "<-" + ESCAPED && s[1..][1..] == "-" + ESCAPED && s[1..][1..][1..] == ESCAPED;
    assert WordsIn(s) == WordsIn(s[1..]);
    assert WordsIn(s[1..]) == WordsIn(s[1..][1..]);
    assert WordsIn(s[1..][1..]) == WordsIn(ESCAPED);
    assert Found([]) == {};
  }

  lemma LetterSpelled()
    ensures "b" in WordsOf(Literal("b"))
  {
    assert Lower("b") == "b" && IsWord("b");
  }

  /** They part on a letter behind a backslash: the parser drops the backslash and reads a word, and the
      scan reads none.  */
  lemma ScansPart()
    ensures File(ESCAPED_RULE).Done? && !(WordsOfRules(File(ESCAPED_RULE).value) <= Found(ESCAPED_RULE))
  {
    hide File, Found, WordsOf;
    EscapedRuleReads();
    EscapedRuleNotFound();
    LetterSpelled();
    assert "b" in WordsOfRules(File(ESCAPED_RULE).value);
  }

  // ---------------------------------------------------------------------------------------------
  // The table

  predicate PlainWord(word: string) {
    forall i :: 0 <= i < |word| ==> NameChar(word[i])
  }

  /** A list entry that names a word: lists may have empty lines.  */
  predicate Lists(list: seq<string>, text: string) {
    exists i :: 0 <= i < |list| && list[i] != "" && Lower(list[i]) == text
  }

  /** A list the table can be built from.  */
  predicate Usable(list: seq<string>) {
    (exists i :: 0 <= i < |list| && list[i] != "") && forall i :: 0 <= i < |list| ==> PlainWord(list[i])
  }

  /** By code points: some entry is not empty, and all are letters, digits and underscores.  */
  lemma UsableByCode(list: seq<string>)
    ensures Usable(list) <==>
            && (exists i :: 0 <= i < |list| && |list[i]| > 0)
            && forall i, j :: 0 <= i < |list| && 0 <= j < |list[i]| ==>
                 var code := list[i][j] as int; 48 <= code <= 57 || 65 <= code <= 90 || code == 95 || 97 <= code <= 122
  {
    if forall i, j :: 0 <= i < |list| && 0 <= j < |list[i]| ==> NameChar(list[i][j]) {
      assert forall i :: 0 <= i < |list| ==> PlainWord(list[i]);
    }
    forall i, j | 0 <= i < |list| && 0 <= j < |list[i]| && PlainWord(list[i]) ensures NameChar(list[i][j]) {}
  }

  predicate InList(lists: seq<seq<string>>, k: nat, text: string) {
    k < |lists| && Lists(lists[k], text)
  }

  predicate Given(table: map<string, set<nat>>, text: string, k: nat) {
    text in table && k in table[text]
  }

  /** `table` gives each word of the first lists the classes of the lists it is in, and each scanned word a
      place.  */
  ghost predicate Classifies(table: map<string, set<nat>>, lists: seq<seq<string>>, scanned: set<string>) {
    && (forall t :: t in table <==> t in scanned || exists k :: InList(lists, k, t))
    && (forall t, k: nat :: Given(table, t, k) <==> InList(lists, k, t))
  }

  /** One list into the table, as class `k`, or nothing when the list cannot be used.  */
  method AddList(table: map<string, set<nat>>, list: seq<string>, k: nat) returns (r: RuleTable.Option<map<string, set<nat>>>)
    ensures r.Some? <==> Usable(list)
    ensures r.Some? ==>
              && (forall t :: t in r.value <==> t in table || Lists(list, t))
              && (forall t, j: nat :: Given(r.value, t, j) <==> Given(table, t, j) || (j == k && Lists(list, t)))
  {
    hide Given, Lists, Marked;
    NoLines(list);
    var m := table;
    var seen := 0;
    for i := 0 to |list|
      invariant forall j :: 0 <= j < i ==> PlainWord(list[j])
      invariant seen > 0 <==> exists j :: 0 <= j < i && list[j] != ""
      invariant forall t :: t in m <==> t in table || Lists(list[..i], t)
      invariant forall t, j: nat :: Given(m, t, j) <==> Given(table, t, j) || (j == k && Lists(list[..i], t))
    {
      OneMoreLine(list, i);
      if list[i] == "" {
        continue;
      }
      if !PlainWord(list[i]) {
        return RuleTable.None;
      }
      var word := Lower(list[i]);
      GivenMore(m, word, k);
      m := Marked(m, word, k);
      seen := seen + 1;
    }
    assert list[..|list|] == list;
    if seen == 0 {
      return RuleTable.None;
    }
    return RuleTable.Some(m);
  }

  lemma NoLines(list: seq<string>)
    ensures forall t :: !Lists(list[..0], t)
  {}

  /** A word put in class `k`.  */
  function Marked(m: map<string, set<nat>>, word: string, k: nat): map<string, set<nat>> {
    m[word := (if word in m then m[word] else {}) + {k}]
  }

  lemma GivenMore(m: map<string, set<nat>>, word: string, k: nat)
    ensures forall t :: t in Marked(m, word, k) <==> t in m || t == word
    ensures forall t, j: nat :: Given(Marked(m, word, k), t, j) <==> Given(m, t, j) || (t == word && j == k)
  {
    var classes := if word in m then m[word] else {};
    var more := Marked(m, word, k);
    forall t, j: nat ensures Given(more, t, j) <==> Given(m, t, j) || (t == word && j == k) {
      assert more[word] == classes + {k};
      assert j in classes + {k} <==> j in classes || j == k;
    }
  }

  lemma OneMoreLine(list: seq<string>, i: nat)
    requires i < |list|
    ensures forall t :: Lists(list[..i + 1], t) <==> Lists(list[..i], t) || (list[i] != "" && Lower(list[i]) == t)
  {
    var more := list[..i + 1];
    forall t ensures Lists(more, t) <==> Lists(list[..i], t) || (list[i] != "" && Lower(list[i]) == t) {
      if Lists(list[..i], t) {
        var j :| 0 <= j < i && list[..i][j] != "" && Lower(list[..i][j]) == t;
        assert more[j] == list[..i][j];
      }
      if Lists(more, t) {
        var j :| 0 <= j < |more| && more[j] != "" && Lower(more[j]) == t;
        assert j < i ==> list[..i][j] == more[j];
      }
      assert more[i] == list[i];
    }
  }

  /** The keyword table, sorted by spelling: the classes of a word are exactly the lists it is in, and every
      word a rule spells has a place even when it is in none.  */
  method KeywordTable(lists: seq<seq<string>>, words: seq<string>) returns (r: RuleTable.Option<seq<RuleTable.Word>>)
    ensures r.Some? <==> forall k :: 0 <= k < |lists| ==> Usable(lists[k])
    ensures r.Some? ==>
              && Ascending(RuleTable.Spellings(r.value))
              && Classifies(TableOf(r.value), lists, All(words))
  {
    hide Lists, Usable, Classifies;
    var table: map<string, set<nat>> := map[];
    assert lists[..0] == [];
    NothingListed();
    for k := 0 to |lists|
      invariant forall j :: 0 <= j < k ==> Usable(lists[j])
      invariant Classifies(table, lists[..k], {})
    {
      var added := AddList(table, lists[k], k);
      if added.None? {
        return RuleTable.None;
      }
      OneMoreList(table, added.value, lists, k);
      table := added.value;
    }
    assert lists[..|lists|] == lists;
    assert All(words[..0]) == {};
    for i := 0 to |words|
      invariant Classifies(table, lists, All(words[..i]))
    {
      assert words[..i + 1] == words[..i] + [words[i]];
      assert All(words[..i + 1]) == All(words[..i]) + {words[i]};
      OneMoreWord(table, lists, All(words[..i]), words[i]);
      if words[i] !in table {
        table := table[words[i] := {}];
      }
    }
    assert words[..|words|] == words;
    var out := Listed(table);
    return RuleTable.Some(out);
  }

  lemma NothingListed()
    ensures Classifies(map[], [], {})
  {}

  lemma OneMoreWord(table: map<string, set<nat>>, lists: seq<seq<string>>, scanned: set<string>, word: string)
    requires Classifies(table, lists, scanned)
    ensures Classifies(if word in table then table else table[word := {}], lists, scanned + {word})
  {
    hide Lists;
  }

  lemma OneMoreList(table: map<string, set<nat>>, after: map<string, set<nat>>, lists: seq<seq<string>>, k: nat)
    requires k < |lists| && Classifies(table, lists[..k], {})
    requires forall t :: t in after <==> t in table || Lists(lists[k], t)
    requires forall t, j: nat :: Given(after, t, j) <==> Given(table, t, j) || (j == k && Lists(lists[k], t))
    ensures Classifies(after, lists[..k + 1], {})
  {
    hide Lists, Given;
    var more := lists[..k + 1];
    assert forall t, j: nat :: InList(more, j, t) <==> InList(lists[..k], j, t) || (j == k && Lists(lists[k], t));
    forall t | t in after ensures exists j :: InList(more, j, t) {
      if t in table {
        var j :| InList(lists[..k], j, t);
        assert InList(more, j, t);
      } else {
        assert InList(more, k, t);
      }
    }
  }

  /** A sorted list of words as a map.  */
  ghost function TableOf(table: seq<RuleTable.Word>): map<string, set<nat>>
  {
    if table == [] then map[]
    else TableOf(table[..|table| - 1])[table[|table| - 1].text := table[|table| - 1].classes]
  }

  ghost function Part(table: map<string, set<nat>>, names: seq<string>): map<string, set<nat>> {
    map t | t in names && t in table :: table[t]
  }

  lemma OneMoreName(table: map<string, set<nat>>, names: seq<string>, i: nat, out: seq<RuleTable.Word>)
    requires i < |names| && names[i] in table
    requires RuleTable.Spellings(out) == names[..i] && TableOf(out) == Part(table, names[..i])
    ensures var more := out + [RuleTable.Word(names[i], table[names[i]])];
            RuleTable.Spellings(more) == names[..i + 1] && TableOf(more) == Part(table, names[..i + 1])
  {
    var more := out + [RuleTable.Word(names[i], table[names[i]])];
    assert more[..|out|] == out;
    assert names[..i + 1] == names[..i] + [names[i]];
  }

  method Listed(table: map<string, set<nat>>) returns (out: seq<RuleTable.Word>)
    ensures Ascending(RuleTable.Spellings(out)) && TableOf(out) == table
  {
    hide Ascending, RuleTable.Spellings;
    var names := Sorted(table.Keys);
    out := [];
    NoNames();
    for i := 0 to |names|
      invariant RuleTable.Spellings(out) == names[..i] && TableOf(out) == Part(table, names[..i])
    {
      OneMoreName(table, names, i, out);
      out := out + [RuleTable.Word(names[i], table[names[i]])];
    }
    assert names[..|names|] == names;
  }

  lemma NoNames()
    ensures RuleTable.Spellings([]) == []
  {}
}
