/** The tokenizer: one pass over the query in nine states.  */
module Tokenizer {
  import opened RuleTable
  import opened Ordering
  import opened Meaning
  import opened Lexing

  datatype State =
    | Standard | InLineComment | InBlockComment | InName | InString | InWord | InDigits | InOperator | InDollars

  /** Going on after one step.  */
  lemma Advance(q: string, keywords: seq<RuleTable.Word>, tokens: seq<Lexed>, past: Past, at: nat)
    requires at < |q| && (past.prev.Some? ==> past.prev.value <= at) && !StepAt(q, at).Trouble?
    ensures var end := StepEnd(at, StepAt(q, at));
            && at < end <= |q|
            && Prefixed(tokens, Lex(q, keywords, past, at))
               == Prefixed(tokens + Emitted(q, keywords, past, at), Lex(q, keywords, After(q, past, at), end))
  {
    hide StepAt, Emitted, After;
    StepMoves(q, at);
    var rest := Lex(q, keywords, After(q, past, at), StepEnd(at, StepAt(q, at)));
    assert rest.Lexeds? ==>
        tokens + (Emitted(q, keywords, past, at) + rest.out) == tokens + Emitted(q, keywords, past, at) + rest.out;
  }

  lemma DollarSteps(q: string, at: nat)
    requires Has(q, at, '$')
    ensures StepAt(q, at) == DollarStep(q, at)
    ensures Has(q, at + 1, '$') ==> TagEnd(q, at + 1).Some?
  {}

  class Tokenizer {
    const q: string
    const keywords: seq<RuleTable.Word>
    var tokens: seq<Lexed>
    var last: nat
    var i: nat
    var state: State
    var blockAt: Option<nat>
    var escapes: bool
    var tag: string
    var depth: nat

    /** Where the text not yet made tokens starts, and what is remembered there.  */
    ghost var at: nat
    ghost var past: Past

    ghost function Ended(): Option<nat>
      reads `tokens
    {
      if tokens == [] then None else Some(tokens[|tokens| - 1].end)
    }

    /** The tokens so far and the text from `at` make the whole.  */
    ghost predicate Split()
      reads `at, `past, `tokens, `blockAt
    {
      && at <= |q| && past.prev == Ended() && past.block == blockAt
      && (past.prev.Some? ==> past.prev.value <= at)
      && LexQuery(q, keywords) == Prefixed(tokens, Lex(q, keywords, past, at))
    }

    /** The start of the token being built, which a dollar made a token leaves behind.  */
    ghost predicate Behind()
      reads `at, `past, `last
    {
      if past.dollar then last + 1 == at < |q| && q[last] == '$' && q[at] != '$' else last == at
    }

    /** The scan is in `state`, about to look at `next`.  */
    ghost predicate Going(next: nat)
      reads `at, `past, `tokens, `blockAt, `last, `state, `depth, `escapes, `tag
    {
      && Split() && at <= next <= |q|
      && match state
         case Standard =>
           Behind() && (next == at || (!past.dollar && next == at + 1 == |q| && q[at] == '$'))
         case InLineComment => at < next && Behind() && q[at] == '-' && StepAt(q, at) == Line(LineEnd(q, next))
         case InBlockComment =>
           && at + 1 < next && Behind() && 0 < depth && q[at..at + 2] == "/*"
           && StepAt(q, at) == Commented(BlockEnd(q, next, depth))
         case InName => at < next && last == at && StepAt(q, at) == Naming(at, NameEnd(q, next))
         case InString => at < next && last == at && StepAt(q, at) == Opening(StringEnd(q, next, escapes), Kind.String, OpenString)
         case InWord => at < next && last == at && StepAt(q, at) == Step.Word(WordEnd(q, next))
         case InDigits =>
           at < next && last == at && StartsNumber(q[at]) && StepAt(q, at) == One(Kind.Number, NumberEnd(q, at, next))
         case InOperator => at < next && last == at && StepAt(q, at) == Operators(RunEndsAt(q, next))
         case InDollars => at < next && last == at && StepAt(q, at) == Quoted(q, DollarEnd(q, next, tag))
    }

    constructor (q: string, keywords: seq<RuleTable.Word>)
      ensures this.q == q && this.keywords == keywords && i == 0 && at == 0 && Going(0)
    {
      this.q, this.keywords := q, keywords;
      tokens, last, i, state, blockAt, escapes, tag, depth := [], 0, 0, Standard, None, false, "", 0;
      at, past := 0, START;
      new;
      var rest := Lex(q, keywords, START, 0);
      assert rest.Lexeds? ==> [] + rest.out == rest.out;
    }

    /** Takes note of a finished step.  */
    ghost method Finish(end: nat)
      requires at < |q| && (past.prev.Some? ==> past.prev.value <= at) && !StepAt(q, at).Trouble?
      requires end == StepEnd(at, StepAt(q, at))
      modifies `at, `past
      ensures at == end && past == After(q, old(past), old(at)) && old(at) < end <= |q|
    {
      StepMoves(q, at);
      past := After(q, past, at);
      at := end;
    }

    /** Appends a token, unless it is empty.  */
    method Push(start: nat, end: nat, kind: Kind)
      requires start <= end <= |q| && (Ended().Some? ==> Ended().value <= start)
      modifies `tokens
      ensures tokens == old(tokens)
                        + if start == end then []
                          else [Made(q, Past(old(Ended()), blockAt, false), kind, NOT_A_KEYWORD, start, end)]
    {
      if start < end {
        tokens := tokens + [Flagged(kind, NOT_A_KEYWORD, start, end)];
      }
    }

    /** A token with its gap flags.  */
    function Flagged(kind: Kind, keyword: nat, start: nat, end: nat): (t: Lexed)
      requires start <= end <= |q| && (Ended().Some? ==> Ended().value <= start)
      reads this
      ensures t == Made(q, Past(Ended(), blockAt, false), kind, keyword, start, end)
    {
      var prev := if tokens == [] then None else Some(tokens[|tokens| - 1].end);
      Made(q, Past(prev, blockAt, false), kind, keyword, start, end)
    }

    // -------------------------------------------------------------------------------------------
    // Finishing a step

    /** One token from the start of the pending text to `end`.  */
    method EndOne(start: nat, end: nat, kind: Kind)
      requires Split() && at < |q| && start == at && StepAt(q, at) == One(kind, end)
      modifies `tokens, `at, `past
      ensures Split() && old(at) < at == end && !past.dollar
    {
      hide Lex, StepAt;
      Advance(q, keywords, tokens, past, at);
      Push(start, end, kind);
      Finish(end);
    }

    /** A bare word, with its number and kind.  */
    method EndWord(start: nat, end: nat)
      requires Split() && at < |q| && start == at && StepAt(q, at) == Step.Word(end)
      requires Ascending(Spellings(keywords))
      modifies `tokens, `at, `past
      ensures Split() && old(at) < at == end && !past.dollar
    {
      hide Lex, StepAt, Ascending;
      Advance(q, keywords, tokens, past, at);
      var n := Search(keywords, q[start..end]);
      tokens := tokens + [Flagged(WordKind(keywords, n), n, start, end)];
      Finish(end);
    }

    /** A run of operator characters, its trailing plus signs apart.  */
    method EndRun(start: nat, end: nat)
      requires Split() && at < |q| && start == at && StepAt(q, at) == Operators(end)
      modifies `tokens, `at, `past
      ensures Split() && old(at) < at == end && !past.dollar
    {
      hide Lex, StepAt;
      Advance(q, keywords, tokens, past, at);
      PushOperator(start, end, past);
      Finish(end);
    }

    method PushOperator(start: nat, end: nat, ghost past: Past)
      requires start < end <= |q| && (Ended().Some? ==> Ended().value <= start)
      requires past.prev == Ended() && past.block == blockAt
      modifies `tokens
      ensures tokens == old(tokens) + RunTokens(q, past, start, end) && Ended() == Some(end)
    {
      hide Singles;
      var cut := FindCut(q, start, end);
      Push(start, cut, Kind.Operator);
      if cut == start {
        PushSingles(cut, end, past);
      } else {
        ghost var rest := Singles(q, past.(prev := Some(cut)), cut, end);
        ghost var head := Made(q, past, Kind.Operator, NOT_A_KEYWORD, start, cut);
        assert old(tokens) + [head] + rest == old(tokens) + ([head] + rest);
        PushSingles(cut, end, past.(prev := Some(cut)));
      }
    }

    method PushSingles(from: nat, end: nat, ghost past: Past)
      requires from <= end <= |q| && (Ended().Some? ==> Ended().value <= from)
      requires past.prev == Ended() && past.block == blockAt
      modifies `tokens
      ensures tokens == old(tokens) + Singles(q, past, from, end)
      ensures Ended() == if from < end then Some(end) else old(Ended())
    {
      var k := from;
      while k < end
        invariant from <= k <= end && Ended() == if from < k then Some(k) else old(Ended())
        invariant old(tokens) + Singles(q, past, from, end) == tokens + Singles(q, past.(prev := Ended()), k, end)
      {
        ghost var t := Made(q, past.(prev := Ended()), Kind.Operator, NOT_A_KEYWORD, k, k + 1);
        ghost var rest := Singles(q, past.(prev := Some(k + 1)), k + 1, end);
        assert tokens + ([t] + rest) == tokens + [t] + rest;
        Push(k, k + 1, Kind.Operator);
        k := k + 1;
      }
      assert tokens + [] == tokens;
    }

    // -------------------------------------------------------------------------------------------
    // The states

    /** The scan has moved on from position `a`, at index `k`: a step was finished, a token begun, or the
        index raised.  */
    ghost predicate Moved(a: nat, standard: bool, k: nat)
      reads this
    {
      && at <= |q| && i + 1 <= |q|
      && (at > a || (at == a && ((standard && !state.Standard?) || (standard == state.Standard? && i + 1 > k))))
    }

    ghost predicate Looking(s: State)
      reads this
    {
      Going(i) && i < |q| && state == s && Ascending(Spellings(keywords))
    }

    /** Between tokens: the next character decides which state comes next.  */
    method ScanStandard()
      requires Looking(Standard)
      modifies this
      ensures Going(i + 1) && Moved(old(at), true, old(i))
    {
      hide Lex, Ascending, Plainly;
      var c := q[i];
      if c == '\'' {
        last, escapes, state := i, false, InString;
      } else if c == '"' {
        last, state := i, InName;
      } else if c == ';' {
        EndOne(i, i + 1, Kind.Terminator);
        last := i + 1;
      } else if c == '$' {
        ScanDollar();
      } else if c == '-' && i + 1 < |q| && q[i + 1] == '-' {
        i := i + 1;
        state := InLineComment;
      } else if c == '/' && i + 1 < |q| && q[i + 1] == '*' {
        i := i + 1;
        depth, state := 1, InBlockComment;
      } else if IsSpace(c) {
        Advance(q, keywords, tokens, past, at);
        Finish(i + 1);
        assert tokens + [] == tokens;
        last := i + 1;
      } else {
        ScanPlain();
      }
    }

    /** A dollar is a parameter, the start of a quoted string, or on its own.  */
    method ScanDollar()
      requires Looking(Standard) && q[i] == '$'
      modifies this
      ensures Going(i + 1) && Moved(old(at), true, old(i))
    {
      hide Lex, Ascending, StepAt, TagEnd, DollarEnd;
      DollarSteps(q, i);
      if i + 1 == |q| {
        return;
      }
      var close := None;
      if !IsDigit(q[i + 1]) {
        close := FindTag(q, i + 1);
      }
      if close.None? {
        Advance(q, keywords, tokens, past, at);
        Push(i, i + 1, Kind.Operator);
        Finish(i + 1);
      } else {
        last, tag := i, q[i + 1..close.value];
        i, state := close.value, InDollars;
      }
    }

    /** What is neither quoted, a comment nor space.  */
    method ScanPlain()
      requires Looking(Standard) && at == i && StepAt(q, i) == Plainly(q, i)
      modifies this
      ensures Going(i + 1) && Moved(old(at), true, old(i))
    {
      hide Lex, Ascending, StepAt, InRun, IsSingle, IsPunctuation, IsPrefix, Special;
      var c := q[i];
      var len := Special(q, i);
      if len > 0 {
        if i + len < |q| && InRun(q[i + len]) {
          last, state := i, InOperator;
        } else {
          EndOne(i, i + len, Kind.Operator);
          i := i + len - 1;
          last := i + 1;
        }
      } else if IsSingle(c) {
        EndOne(i, i + 1, Kind.Operator);
        last := i + 1;
      } else if StartsNumber(c) {
        last, state := i, InDigits;
      } else if IsPrefix(c) && i + 1 < |q| && q[i + 1] == '\'' {
        last, escapes := i, IsExponent(c);
        i, state := i + 1, InString;
      } else if IsPunctuation(c) {
        last, state := i, InOperator;
      } else {
        last, state := i, InWord;
      }
    }

    method ScanWord()
      requires Looking(InWord)
      modifies this
      ensures Going(i + 1) && Moved(old(at), false, old(i))
    {
      hide StepAt, Lex, Ascending, IsWordChar;
      if q[i] == '$' || IsWordChar(q[i]) {
        return;
      }
      EndWord(last, i);
      state := Standard;
      last := i;
      i := i - 1;
    }

    method ScanOperator()
      requires Looking(InOperator)
      modifies this
      ensures Going(i + 1) && Moved(old(at), false, old(i))
    {
      hide StepAt, Lex, Ascending, InRun;
      if (q[i] == '/' && i + 1 < |q| && q[i + 1] == '*') || !InRun(q[i]) {
        EndRun(last, i);
        state := Standard;
        last := i;
        i := i - 1;
      }
    }

    method ScanDigits()
      requires Looking(InDigits)
      modifies this
      ensures Going(i + 1) && Moved(old(at), false, old(i))
    {
      hide StepAt, Lex, Ascending;
      if StartsNumber(q[i]) {
        return;
      }
      if q[i] == '_' && i + 1 < |q| && StartsNumber(q[i + 1]) {
        return;
      }
      if IsExponent(q[i]) && !IsExponent(q[i - 1]) {
        if IsDigit(q[last]) || IsDigit(q[i - 1]) {
          return;
        }
      }
      if (q[i] == '+' || q[i] == '-') && IsExponent(q[i - 1]) {
        return;
      }
      i := TrimNumber(q, last, i);
      EndOne(last, i, Kind.Number);
      state := Standard;
      last := i;
      i := i - 1;
    }

    method ScanString()
      requires Looking(InString)
      modifies this
      ensures Going(i + 1) && Moved(old(at), false, old(i))
    {
      hide StepAt, Lex, Ascending;
      if escapes && q[i] == '\\' && i + 1 < |q| {
        i := i + 1;
        return;
      }
      if q[i] != '\'' {
        return;
      }
      if i + 1 < |q| && q[i + 1] == '\'' {
        i := i + 1;
        return;
      }
      EndOne(last, i + 1, Kind.String);
      last := i + 1;
      escapes := false;
      state := Standard;
    }

    method ScanName() returns (trouble: Option<Trouble>)
      requires Looking(InName)
      modifies this
      ensures trouble.None? ==> Going(i + 1) && Moved(old(at), false, old(i))
      ensures trouble.Some? ==> LexQuery(q, keywords) == Stopped(trouble.value)
    {
      hide StepAt, Ascending;
      if q[i] != '"' {
        return None;
      }
      if i + 1 < |q| && q[i + 1] == '"' {
        i := i + 1;
        return None;
      }
      if i + 1 == last + 2 {
        return Some(EmptyName);
      }
      EndOne(last, i + 1, Kind.QuotedIdentifier);
      last := i + 1;
      state := Standard;
      return None;
    }

    /** Remembers where a block comment started.  */
    method Comment(start: nat, end: nat)
      requires start <= end <= |q|
      modifies `blockAt
      ensures blockAt == if end >= start + 2 && q[start..start + 2] == "/*" then Some(start) else old(blockAt)
    {
      if end >= start + 2 && q[start..start + 2] == "/*" {
        blockAt := Some(start);
      }
    }

    method ScanLineComment()
      requires Looking(InLineComment)
      modifies this
      ensures Going(i + 1) && Moved(old(at), false, old(i))
    {
      hide StepAt, Lex, Ascending;
      if IsBreak(q[i]) {
        Advance(q, keywords, tokens, past, at);
        assert |q| >= last + 2 ==> q[last..last + 2][0] == q[last];
        Comment(last, i + 1);
        Finish(i + 1);
        assert tokens + [] == tokens;
        last := i + 1;
        state := Standard;
      }
    }

    method ScanBlockComment()
      requires Looking(InBlockComment)
      modifies this
      ensures Going(i + 1) && Moved(old(at), false, old(i))
    {
      hide StepAt, Lex, Ascending;
      if q[i] == '/' && i + 1 < |q| && q[i + 1] == '*' {
        i := i + 1;
        depth := depth + 1;
      } else if q[i] == '*' && i + 1 < |q| && q[i + 1] == '/' {
        i := i + 1;
        depth := depth - 1;
        if depth == 0 {
          Advance(q, keywords, tokens, past, at);
          assert q[last..last + 2][0] == q[last];
          Comment(last, i + 1);
          Finish(i + 1);
          assert tokens + [] == tokens;
          last := i + 1;
          state := Standard;
        }
      }
    }

    method ScanDollars()
      requires Looking(InDollars)
      modifies this
      ensures Going(i + 1) && Moved(old(at), false, old(i))
    {
      hide StepAt, Lex, Ascending;
      if q[i] != '$' || i + 1 >= |q| {
        return;
      }
      var start := i + 1;
      var end := start;
      while end < |q| && q[end] != '$'
        invariant start <= end <= |q| && DollarAt(q, start) == DollarAt(q, end)
      {
        end := end + 1;
      }
      if end >= |q| || q[start..end] != tag {
        return;
      }
      EndOne(last, end + 1, Kind.String);
      state := Standard;
      i := end;
      last := i + 1;
    }

    /** The end of the text is a different decision in each state.  */
    method Close() returns (r: Tokens)
      requires Going(|q|) && Ascending(Spellings(keywords))
      modifies this
      ensures r == LexQuery(q, keywords)
    {
      hide StepAt, Ascending;
      match state {
        case InBlockComment => return Stopped(OpenComment);
        case InString => return Stopped(OpenString);
        case InName => return Stopped(OpenName);
        case InLineComment =>
          Advance(q, keywords, tokens, past, at);
          assert |q| >= last + 2 ==> q[last..last + 2][0] == q[last];
          Comment(last, |q|);
          Finish(|q|);
          assert tokens + [] == tokens;
        case InOperator => EndRun(last, |q|);
        case InDollars => EndOne(last, |q|, Kind.String);
        case InDigits => EndOne(last, |q|, Kind.Number);
        case InWord => EndWord(last, |q|);
        case Standard => EndStandard();
      }
      assert at == |q|;
      r := Lexeds(tokens + [EndToken(q)]);
    }

    /** Only a dollar on its own is left over.  */
    method EndStandard()
      requires Going(|q|) && state.Standard?
      modifies this
      ensures Split() && at == |q|
    {
      hide Lex;
      if last < |q| {
        Advance(q, keywords, tokens, past, at);
        Push(last, |q|, Kind.Identifier);
        Finish(|q|);
      }
    }

    /** The whole pass.  */
    method Scan() returns (r: Tokens)
      requires Going(0) && i == 0 && at == 0 && Ascending(Spellings(keywords))
      modifies this
      ensures r == LexQuery(q, keywords)
    {
      hide Going, LexQuery, Ascending;
      while i < |q|
        invariant Going(i) && i <= |q| && at <= |q|
        decreases |q| - at, if state.Standard? then 1 else 0, |q| - i
      {
        var trouble := None;
        match state {
          case Standard => ScanStandard();
          case InWord => ScanWord();
          case InOperator => ScanOperator();
          case InDigits => ScanDigits();
          case InString => ScanString();
          case InName => trouble := ScanName();
          case InLineComment => ScanLineComment();
          case InBlockComment => ScanBlockComment();
          case InDollars => ScanDollars();
        }
        if trouble.Some? {
          return Stopped(trouble.value);
        }
        i := i + 1;
      }
      r := Close();
    }
  }

  /** The dollar that closes an opening tag.  */
  method FindTag(q: string, from: nat) returns (close: Option<nat>)
    requires from <= |q|
    ensures close == TagEnd(q, from)
  {
    var at := from;
    while at < |q|
      invariant from <= at <= |q| && TagEnd(q, at) == TagEnd(q, from)
    {
      if q[at] == '$' {
        return Some(at);
      }
      if !IsTagChar(q[at]) {
        return None;
      }
      at := at + 1;
    }
    return None;
  }

  /** Gives back what is on the end of a number that is neither a digit nor a dot.  */
  method TrimNumber(q: string, start: nat, i: nat) returns (end: nat)
    requires start < i <= |q| && StartsNumber(q[start])
    ensures end == GiveBack(q, start, i)
  {
    end := i;
    while !StartsNumber(q[end - 1])
      invariant start < end <= i && GiveBack(q, start, end) == GiveBack(q, start, i)
      decreases end
    {
      end := end - 1;
    }
  }

  /** Where an operator run is cut: before its trailing plus signs, unless it is marked.  */
  method FindCut(q: string, start: nat, end: nat) returns (cut: nat)
    requires start <= end <= |q|
    ensures cut == Cut(q, start, end)
  {
    cut := end;
    if !IsMarked(q[start..end]) {
      while cut > start && q[cut - 1] == '+'
        invariant start <= cut <= end && PlusStart(q, start, cut) == PlusStart(q, start, end)
      {
        cut := cut - 1;
      }
    }
  }

  /** The length of the longest word in the table.  */
  function Longest(keywords: seq<RuleTable.Word>): (n: nat)
    ensures forall i :: 0 <= i < |keywords| ==> |keywords[i].text| <= n
  {
    if keywords == [] then 0
    else
      var rest := Longest(keywords[..|keywords| - 1]);
      var size := |keywords[|keywords| - 1].text|;
      if size > rest then size else rest
  }

  /** Binary search for a word in the sorted table.  A word longer than any in the table is not looked for.  */
  method Search(keywords: seq<RuleTable.Word>, text: string) returns (n: nat)
    requires Ascending(Spellings(keywords))
    ensures n == Lookup(keywords, text)
  {
    if |text| > Longest(keywords) {
      return NOT_A_KEYWORD;
    }
    var word := Lower(text);
    var low, high := 0, |keywords|;
    while low < high
      invariant 0 <= low <= high <= |keywords|
      invariant forall i :: 0 <= i < low ==> keywords[i].text != word
      invariant forall i :: high <= i < |keywords| ==> keywords[i].text != word
    {
      var mid := (low + high) / 2;
      Halved(keywords, mid, word);
      if keywords[mid].text == word {
        return mid;
      } else if Before(keywords[mid].text, word) {
        low := mid + 1;
      } else {
        high := mid;
      }
    }
    return NOT_A_KEYWORD;
  }

  /** One comparison settles one side of the table.  */
  lemma Halved(keywords: seq<RuleTable.Word>, mid: nat, word: string)
    requires Ascending(Spellings(keywords)) && mid < |keywords|
    ensures keywords[mid].text == word ==> FindWord(keywords, word) == Some(mid)
    ensures Before(keywords[mid].text, word) ==> forall i :: 0 <= i <= mid ==> keywords[i].text != word
    ensures keywords[mid].text != word && !Before(keywords[mid].text, word) ==>
              forall i :: mid <= i < |keywords| ==> keywords[i].text != word
  {
    AscendingDistinct(Spellings(keywords));
    assert forall i :: 0 <= i < |keywords| ==> Spellings(keywords)[i] == keywords[i].text;
    BeforeTotal(keywords[mid].text, word);
    if Before(keywords[mid].text, word) {
      forall i | 0 <= i <= mid ensures keywords[i].text != word {
        if i < mid && keywords[i].text == word {
          BeforeTransitive(keywords[i].text, keywords[mid].text, word);
        }
        BeforeIrreflexive(word);
      }
    } else if keywords[mid].text != word {
      forall i | mid <= i < |keywords| ensures keywords[i].text != word {
        assert mid < i ==> Before(keywords[mid].text, keywords[i].text);
      }
    }
  }

  /** Splits a query into tokens.  */
  method Tokenize(q: string, keywords: seq<RuleTable.Word>) returns (r: Tokens)
    requires Ascending(Spellings(keywords))
    ensures r == LexQuery(q, keywords)
  {
    var tokenizer := new Tokenizer(q, keywords);
    r := tokenizer.Scan();
  }
}
