/** How tokens are spelled: where strings, names, comments, numbers and words begin and end, said of the
    characters of the query.  */
module Spelling {
  import opened RuleTable
  import opened Meaning
  import opened Lexing
  import opened TokenLaws

  // ---------------------------------------------------------------------------------------------
  // Characters, by code point

  predicate Spacing(c: char) {
    9 <= c as int <= 13 || c as int == 32
  }

  predicate Digit(c: char) {
    48 <= c as int <= 57
  }

  /** ASCII punctuation but the underscore.  */
  predicate Mark(c: char) {
    var n := c as int;
    33 <= n <= 47 || 58 <= n <= 64 || 91 <= n <= 94 || n == 96 || 123 <= n <= 126
  }

  /** What a word is made of: neither space nor a mark.  */
  predicate Letterlike(c: char) {
    !Spacing(c) && !Mark(c)
  }

  /** A mark that may stand in the middle of an operator.  */
  predicate Joins(c: char) {
    c in {'!', '%', '&', '*', '+', '/', ':', '<', '=', '>', '@', '\\', '^', '`', '|', '~'}
  }

  lemma CharactersAgree(c: char)
    ensures IsSpace(c) <==> Spacing(c)
    ensures IsBreak(c) <==> c as int == 10 || c as int == 13
    ensures IsDigit(c) <==> Digit(c)
    ensures IsPunctuation(c) <==> Mark(c)
    ensures IsWordChar(c) <==> Letterlike(c)
    ensures InRun(c) <==> Joins(c)
    ensures StartsNumber(c) <==> Digit(c) || c == '.'
    ensures IsTagChar(c) <==> Digit(c) || c == '_' || 65 <= c as int <= 90 || 97 <= c as int <= 122 || c as int >= 128
  {}

  /** Lower case, by code point.  */
  lemma LowerByCode(text: string)
    ensures |Lower(text)| == |text|
    ensures forall i :: 0 <= i < |text| ==>
              Lower(text)[i] as int == text[i] as int + if 65 <= text[i] as int <= 90 then 32 else 0
  {}

  // ---------------------------------------------------------------------------------------------
  // Quoted text

  /** Text in which the mark occurs only doubled.  */
  ghost predicate Doubles(s: string, mark: char) {
    || s == []
    || (s[0] != mark && Doubles(s[1..], mark))
    || (|s| >= 2 && s[0] == mark && s[1] == mark && Doubles(s[2..], mark))
  }

  /** The same, where a backslash takes the next character out of account.  */
  ghost predicate Escapes(s: string) {
    || s == []
    || (s[0] != '\'' && s[0] != '\\' && Escapes(s[1..]))
    || (|s| >= 2 && s[0] == '\\' && Escapes(s[2..]))
    || (|s| >= 2 && s[0] == '\'' && s[1] == '\'' && Escapes(s[2..]))
  }

  /** Quoted text from `i` on closes right before `end`: the mark is there, only doubled marks come before it,
      and no mark comes after it.  */
  ghost predicate Closes(q: string, i: nat, end: nat, mark: char) {
    i < end <= |q| && Doubles(q[i..end - 1], mark) && q[end - 1] == mark && (end < |q| ==> q[end] != mark)
  }

  ghost predicate NeverCloses(q: string, i: nat, mark: char) {
    forall end: nat :: !Closes(q, i, end, mark)
  }

  ghost predicate ClosesEscaped(q: string, i: nat, end: nat) {
    i < end <= |q| && Escapes(q[i..end - 1]) && q[end - 1] == '\'' && (end < |q| ==> q[end] != '\'')
  }

  lemma Tails(q: string, i: nat, end: nat, n: nat)
    requires i + n <= end <= |q|
    ensures q[i..end][n..] == q[i + n..end]
  {}

  // What the first characters say of where quoted text closes.

  lemma ClosesPast(q: string, i: nat, end: nat, mark: char)
    requires i < |q| && q[i] != mark
    ensures Closes(q, i, end, mark) <==> Closes(q, i + 1, end, mark)
  {
    if i + 1 < end <= |q| {
      Tails(q, i, end - 1, 1);
      assert q[i..end - 1][0] == q[i];
    }
  }

  lemma ClosesPair(q: string, i: nat, end: nat, mark: char)
    requires i + 1 < |q| && q[i] == mark && q[i + 1] == mark
    ensures Closes(q, i, end, mark) <==> Closes(q, i + 2, end, mark)
  {
    if i + 2 < end <= |q| {
      Tails(q, i, end - 1, 2);
      assert q[i..end - 1][0] == q[i] && q[i..end - 1][1] == q[i + 1];
    } else if end == i + 2 {
      assert q[i..end - 1] == [mark];
    }
  }

  lemma ClosesHere(q: string, i: nat, end: nat, mark: char)
    requires i < |q| && q[i] == mark && (i + 1 < |q| ==> q[i + 1] != mark)
    ensures Closes(q, i, end, mark) <==> end == i + 1
  {
    if end == i + 1 {
      assert q[i..end - 1] == [];
    } else if i + 1 < end <= |q| {
      var s := q[i..end - 1];
      assert s[0] == mark && (|s| > 1 ==> s[1] == q[i + 1]);
    }
  }

  lemma {:induction false} StringCloses(q: string, i: nat, end: nat)
    requires i <= |q|
    ensures StringEnd(q, i, false) == Some(end) <==> Closes(q, i, end, '\'')
    decreases |q| - i
  {
    if i < |q| {
      hide Closes;
      if q[i] != '\'' {
        ClosesPast(q, i, end, '\'');
        StringCloses(q, i + 1, end);
      } else if Has(q, i + 1, '\'') {
        ClosesPair(q, i, end, '\'');
        StringCloses(q, i + 2, end);
      } else {
        ClosesHere(q, i, end, '\'');
      }
    }
  }

  lemma {:induction false} NameCloses(q: string, i: nat, end: nat)
    requires i <= |q|
    ensures NameEnd(q, i) == Some(end) <==> Closes(q, i, end, '"')
    decreases |q| - i
  {
    if i < |q| {
      hide Closes;
      if q[i] != '"' {
        ClosesPast(q, i, end, '"');
        NameCloses(q, i + 1, end);
      } else if Has(q, i + 1, '"') {
        ClosesPair(q, i, end, '"');
        NameCloses(q, i + 2, end);
      } else {
        ClosesHere(q, i, end, '"');
      }
    }
  }

  lemma EscapedPast(q: string, i: nat, end: nat)
    requires i < |q| && q[i] != '\'' && q[i] != '\\'
    ensures ClosesEscaped(q, i, end) <==> ClosesEscaped(q, i + 1, end)
  {
    if i + 1 < end <= |q| {
      Tails(q, i, end - 1, 1);
      assert q[i..end - 1][0] == q[i];
    }
  }

  lemma EscapedPair(q: string, i: nat, end: nat)
    requires i + 1 < |q| && (q[i] == '\\' || (q[i] == '\'' && q[i + 1] == '\''))
    ensures ClosesEscaped(q, i, end) <==> ClosesEscaped(q, i + 2, end)
  {
    if i + 2 < end <= |q| {
      Tails(q, i, end - 1, 2);
      assert q[i..end - 1][0] == q[i] && q[i..end - 1][1] == q[i + 1];
    } else if end == i + 2 {
      assert q[i..end - 1] == [q[i]];
    }
  }

  lemma EscapedHere(q: string, i: nat, end: nat)
    requires i < |q| && q[i] == '\'' && (i + 1 < |q| ==> q[i + 1] != '\'')
    ensures ClosesEscaped(q, i, end) <==> end == i + 1
  {
    if end == i + 1 {
      assert q[i..end - 1] == [];
    } else if i + 1 < end <= |q| {
      var s := q[i..end - 1];
      assert s[0] == '\'' && (|s| > 1 ==> s[1] == q[i + 1]);
    }
  }

  lemma {:induction false} EscapedCloses(q: string, i: nat, end: nat)
    requires i <= |q|
    ensures StringEnd(q, i, true) == Some(end) <==> ClosesEscaped(q, i, end)
    decreases |q| - i
  {
    if i + 1 == |q| && q[i] == '\\' {
      EscapedCloses(q, i + 1, end);
    } else if i < |q| {
      hide ClosesEscaped;
      if q[i] == '\\' {
        EscapedPair(q, i, end);
        EscapedCloses(q, i + 2, end);
      } else if q[i] != '\'' {
        EscapedPast(q, i, end);
        EscapedCloses(q, i + 1, end);
      } else if Has(q, i + 1, '\'') {
        EscapedPair(q, i, end);
        EscapedCloses(q, i + 2, end);
      } else {
        EscapedHere(q, i, end);
      }
    }
  }

  // ---------------------------------------------------------------------------------------------
  // Dollar quoting

  /** A dollar, the tag and a dollar are at `p`.  */
  ghost predicate TagAt(q: string, p: nat, tag: string) {
    var close := p + 1 + |tag|;
    close < |q| && q[p] == '$' && q[p + 1..close] == tag && q[close] == '$'
  }

  /** What may stand between the dollars of a tag: nothing, or tag characters of which the first is no digit.  */
  predicate IsTag(tag: string) {
    && (tag != [] ==> !Digit(tag[0]))
    && forall i :: 0 <= i < |tag| ==> IsTagChar(tag[i])
  }

  /** Text quoted by a tag that opens at `start`: from one tag to the next, or to the end of the query when
      there is no next.  */
  ghost predicate Tagged(q: string, start: nat, end: nat, tag: string) {
    && IsTag(tag) && TagAt(q, start, tag)
    && var body := start + |tag| + 2;
       if exists p :: body <= p && TagAt(q, p, tag) then
         body + |tag| + 2 <= end && TagAt(q, end - |tag| - 2, tag)
         && forall p :: body <= p < end - |tag| - 2 ==> !TagAt(q, p, tag)
       else end == |q|
  }

  lemma {:induction false} DollarAtIs(q: string, i: nat)
    requires i <= |q|
    ensures forall k :: i <= k < DollarAt(q, i) ==> q[k] != '$'
    ensures DollarAt(q, i) < |q| ==> q[DollarAt(q, i)] == '$'
    decreases |q| - i
  {
    if i < |q| && q[i] != '$' {
      DollarAtIs(q, i + 1);
    }
  }

  /** A tag is here exactly when the text between this dollar and the next is the tag.  */
  lemma TagHere(q: string, i: nat, tag: string)
    requires i < |q| && '$' !in tag
    ensures TagAt(q, i, tag) <==>
            q[i] == '$' && i + 1 < |q| && DollarAt(q, i + 1) < |q| && q[i + 1..DollarAt(q, i + 1)] == tag
    ensures TagAt(q, i, tag) ==> DollarAt(q, i + 1) + 1 == i + |tag| + 2
  {
    if i + 1 < |q| {
      DollarAtIs(q, i + 1);
      var close := DollarAt(q, i + 1);
      if TagAt(q, i, tag) {
        forall k | i + 1 <= k < i + 1 + |tag| ensures q[k] != '$' {
          assert q[k] == tag[k - i - 1];
        }
        assert close == i + 1 + |tag|;
      }
    }
  }

  lemma {:induction false} DollarCloses(q: string, i: nat, tag: string)
    requires i <= |q| && '$' !in tag
    ensures DollarEnd(q, i, tag).None? ==> forall p :: i <= p ==> !TagAt(q, p, tag)
    ensures var end := DollarEnd(q, i, tag);
            end.Some? ==>
              && i + |tag| + 2 <= end.value && TagAt(q, end.value - |tag| - 2, tag)
              && forall p :: i <= p < end.value - |tag| - 2 ==> !TagAt(q, p, tag)
    decreases |q| - i
  {
    hide TagAt;
    NoTagPast(q, tag);
    if i < |q| {
      TagHere(q, i, tag);
      if !TagAt(q, i, tag) {
        DollarCloses(q, i + 1, tag);
      }
    }
  }

  lemma NoTagPast(q: string, tag: string)
    ensures forall p :: |q| <= p ==> !TagAt(q, p, tag)
  {}

  lemma {:induction false} TagCloses(q: string, i: nat)
    requires i <= |q|
    ensures var close := TagEnd(q, i);
            close.Some? ==> q[close.value] == '$' && forall k :: i <= k < close.value ==> q[k] != '$' && IsTagChar(q[k])
    decreases |q| - i
  {
    if i < |q| && q[i] != '$' && IsTagChar(q[i]) {
      TagCloses(q, i + 1);
    }
  }

  // ---------------------------------------------------------------------------------------------
  // Comments

  predicate OpensAt(q: string, i: nat) {
    Has(q, i, '/') && Has(q, i + 1, '*')
  }

  predicate ClosesAt(q: string, i: nat) {
    Has(q, i, '*') && Has(q, i + 1, '/')
  }

  function Plus(n: int, m: Option<int>): Option<int> {
    match m case None => None case Some(k) => Some(n + k)
  }

  /** How many more comment openings than closings there are from `i` to `end`, read from the left, or nothing
      when `end` is in the middle of one.  */
  ghost function Balance(q: string, i: nat, end: nat): (balance: Option<int>)
    requires i <= end <= |q|
    decreases end - i
  {
    if i == end then Some(0)
    else if OpensAt(q, i) then (if i + 1 == end then None else Plus(1, Balance(q, i + 2, end)))
    else if ClosesAt(q, i) then (if i + 1 == end then None else Plus(-1, Balance(q, i + 2, end)))
    else Balance(q, i + 1, end)
  }

  /** The balance first reaches `low` at `end`.  */
  ghost predicate Reaches(q: string, i: nat, end: nat, low: int) {
    && i <= end <= |q| && Balance(q, i, end) == Some(low)
    && forall p :: i <= p < end ==> Balance(q, i, p) != Some(low)
  }

  lemma {:induction false} BlockCloses(q: string, i: nat, depth: nat, end: nat)
    requires i <= |q| && 0 < depth
    ensures BlockEnd(q, i, depth) == Some(end) <==> Reaches(q, i, end, 0 - depth)
    decreases |q| - i
  {
    if i < |q| {
      if OpensAt(q, i) {
        BlockCloses(q, i + 2, depth + 1, end);
        ReachesPast(q, i, end, 0 - depth, 1);
      } else if ClosesAt(q, i) {
        if depth > 1 {
          BlockCloses(q, i + 2, depth - 1, end);
        }
        ReachesPast(q, i, end, 0 - depth, -1);
      } else {
        BlockCloses(q, i + 1, depth, end);
        ReachesOn(q, i, end, 0 - depth);
      }
    }
  }

  lemma ReachesOn(q: string, i: nat, end: nat, low: int)
    requires i < |q| && low < 0 && !OpensAt(q, i) && !ClosesAt(q, i)
    ensures Reaches(q, i, end, low) <==> Reaches(q, i + 1, end, low)
  {
    if Reaches(q, i, end, low) {
      var next := i + 1;
      forall p | next <= p < end ensures Balance(q, next, p) != Some(low) {
        assert Balance(q, i, p) == Balance(q, next, p);
      }
    }
    if Reaches(q, i + 1, end, low) {
      forall p | i <= p < end ensures Balance(q, i, p) != Some(low) {
        assert p > i ==> Balance(q, i, p) == Balance(q, i + 1, p);
      }
    }
  }

  lemma ReachesPast(q: string, i: nat, end: nat, low: int, step: int)
    requires i + 1 < |q| && low < 0
    requires (step == 1 && OpensAt(q, i)) || (step == -1 && ClosesAt(q, i) && !OpensAt(q, i))
    ensures Reaches(q, i, end, low) <==> if low == step then end == i + 2 else Reaches(q, i + 2, end, low - step)
  {
    var next := i + 2;
    assert Balance(q, i, i + 1) == None;
    forall p | next <= p <= |q| ensures Balance(q, i, p) == Plus(step, Balance(q, next, p)) {}
    assert Balance(q, next, next) == Some(0) && Balance(q, i, next) == Some(step) && Balance(q, i, i) == Some(0);
    if Reaches(q, i, end, low) && low != step {
      forall p | next <= p < end ensures Balance(q, next, p) != Some(low - step) {
        assert Balance(q, i, p) != Some(low);
      }
    }
    if low != step && Reaches(q, i + 2, end, low - step) {
      forall p | i <= p < end ensures Balance(q, i, p) != Some(low) {
        assert p >= i + 2 ==> Balance(q, i + 2, p) != Some(low - step);
      }
    }
  }

  /** A block comment from its opening on: the first place where openings and closings balance.  */
  ghost predicate IsBlock(q: string, at: nat, end: nat) {
    && OpensAt(q, at) && at + 2 <= end <= |q| && Balance(q, at, end) == Some(0)
    && forall p :: at < p < end ==> Balance(q, at, p) != Some(0)
  }

  lemma BlockIs(q: string, at: nat, end: nat)
    requires OpensAt(q, at)
    ensures BlockEnd(q, at + 2, 1) == Some(end) <==> IsBlock(q, at, end)
  {
    BlockCloses(q, at + 2, 1, end);
    var inner := at + 2;
    forall p | inner <= p <= |q| ensures Balance(q, at, p) == Plus(1, Balance(q, inner, p)) {}
    assert Balance(q, at, at + 1) == None;
    if IsBlock(q, at, end) {
      forall p | inner <= p < end ensures Balance(q, inner, p) != Some(-1) {
        assert Balance(q, at, p) != Some(0);
      }
    }
    if Reaches(q, at + 2, end, -1) {
      forall p | at < p < end ensures Balance(q, at, p) != Some(0) {
        assert p >= at + 2 ==> Balance(q, at + 2, p) != Some(-1);
      }
    }
  }

  /** A line comment: two dashes, and then up to and with the first line break, or to the end.  */
  ghost predicate IsLine(q: string, at: nat, end: nat) {
    && Has(q, at, '-') && Has(q, at + 1, '-') && at + 2 <= end <= |q|
    && (forall p :: at + 2 <= p < end - 1 ==> !Breaks(q[p]))
    && (if at + 2 < end && Breaks(q[end - 1]) then true else end == |q|)
  }

  predicate Breaks(c: char) {
    c as int == 10 || c as int == 13
  }

  lemma {:induction false} LineStops(q: string, i: nat)
    requires i <= |q|
    ensures var end := LineEnd(q, i);
            && (forall p :: i <= p < end - 1 ==> !Breaks(q[p]))
            && (if i < end && Breaks(q[end - 1]) then true else end == |q|)
    decreases |q| - i
  {
    if i < |q| && !IsBreak(q[i]) {
      LineStops(q, i + 1);
    }
  }

  // ---------------------------------------------------------------------------------------------
  // Words and numbers

  /** A word: no digit first, letters and after the first also dollars, and as far as they go.  */
  ghost predicate IsWordSpan(q: string, at: nat, end: nat) {
    && at < end <= |q| && Letterlike(q[at]) && !Digit(q[at])
    && (forall p :: at < p < end ==> q[p] == '$' || Letterlike(q[p]))
    && (end < |q| ==> q[end] != '$' && !Letterlike(q[end]))
  }

  lemma {:induction false} WordStops(q: string, i: nat)
    requires i <= |q|
    ensures var end := WordEnd(q, i);
            && (forall p :: i <= p < end ==> q[p] == '$' || Letterlike(q[p]))
            && (end < |q| ==> q[end] != '$' && !Letterlike(q[end]))
    decreases |q| - i
  {
    if i < |q| {
      CharactersAgree(q[i]);
      if q[i] == '$' || IsWordChar(q[i]) {
        WordStops(q, i + 1);
      }
    }
  }

  predicate Numeric(c: char) {
    Digit(c) || c == '.'
  }

  predicate Exponent(c: char) {
    c == 'e' || c == 'E'
  }

  /** The character at `i` goes on with a number that started at `start`: a digit or dot, an underscore before
      one, an exponent letter after a digit or in a number that starts with one, or a sign after an exponent
      letter.  */
  predicate GoesOn(q: string, start: nat, i: nat)
    requires start < i < |q|
  {
    || Numeric(q[i])
    || (q[i] == '_' && i + 1 < |q| && Numeric(q[i + 1]))
    || (Exponent(q[i]) && !Exponent(q[i - 1]) && (Digit(q[start]) || Digit(q[i - 1])))
    || ((q[i] == '+' || q[i] == '-') && Exponent(q[i - 1]))
  }

  /** A number: as far as it goes on, less whatever after the last digit or dot, unless that ends the query.  */
  ghost predicate IsNumberSpan(q: string, start: nat, end: nat, run: nat) {
    && start < end <= run <= |q| && Numeric(q[start])
    && (forall i :: start < i < run ==> GoesOn(q, start, i))
    && (run < |q| ==> !GoesOn(q, start, run))
    && (if run == |q| then end == run else Numeric(q[end - 1]) && forall i :: end <= i < run ==> !Numeric(q[i]))
  }

  lemma {:induction false} RunStops(q: string, start: nat, i: nat)
    requires start < i <= |q| && forall k :: start < k < i ==> GoesOn(q, start, k)
    ensures var run := NumberRun(q, start, i);
            (forall k :: start < k < run ==> GoesOn(q, start, k)) && (run < |q| ==> !GoesOn(q, start, run))
    decreases |q| - i
  {
    if i < |q| && GoesOn(q, start, i) {
      RunStops(q, start, i + 1);
    }
  }

  lemma {:induction false} GivenBack(q: string, start: nat, i: nat)
    requires start < i <= |q| && StartsNumber(q[start])
    ensures var end := GiveBack(q, start, i); Numeric(q[end - 1]) && forall k :: end <= k < i ==> !Numeric(q[k])
    decreases i
  {
    if !StartsNumber(q[i - 1]) {
      GivenBack(q, start, i - 1);
    }
  }

  lemma NumberIs(q: string, start: nat)
    requires start < |q| && StartsNumber(q[start])
    ensures IsNumberSpan(q, start, NumberEnd(q, start, start + 1), NumberRun(q, start, start + 1))
  {
    RunStops(q, start, start + 1);
    GivenBack(q, start, NumberRun(q, start, start + 1));
  }

  // ---------------------------------------------------------------------------------------------
  // Operators

  /** How long the operator is that is looked for before any other here, or zero.  */
  ghost function LongMark(q: string, at: nat): nat {
    if at + 3 <= |q| && q[at..at + 3] == "->>" then 3
    else if at + 2 <= |q| && q[at..at + 2] in {"->", "::", ":=", "**", "//"} then 2
    else 0
  }

  /** Marks that never join others.  */
  predicate Lone(c: char) {
    c in {'(', ')', '{', '}', '[', ']', ',', '?', '-', '#'}
  }

  /** An operator of its own: one of the long ones that no mark joins, or a lone mark that starts no long one.  */
  ghost predicate IsOperator(q: string, at: nat, end: nat) {
    at < |q| && !(Has(q, at, '-') && Has(q, at + 1, '-')) &&
    if LongMark(q, at) > 0 then end == at + LongMark(q, at) && (end < |q| ==> !Joins(q[end]))
    else Lone(q[at]) && end == at + 1
  }

  /** A run of marks, as far as they join and no comment opens.  */
  ghost predicate IsRun(q: string, at: nat, end: nat) {
    && at < end <= |q| && !OpensAt(q, at)
    && (if LongMark(q, at) > 0 then at + LongMark(q, at) < |q| && Joins(q[at + LongMark(q, at)]) else Joins(q[at]))
    && (forall p :: at < p < end ==> Joins(q[p]) && !OpensAt(q, p))
    && (end < |q| ==> !Joins(q[end]) || OpensAt(q, end))
  }

  lemma LongMarkIs(q: string, at: nat)
    requires at < |q|
    ensures LongMark(q, at) == Special(q, at)
  {
    if at + 2 <= |q| {
      assert q[at..at + 2] == [q[at], q[at + 1]];
    }
    if at + 3 <= |q| {
      assert q[at..at + 3] == [q[at], q[at + 1], q[at + 2]];
    }
  }

  lemma {:induction false} RunJoins(q: string, i: nat)
    requires i <= |q|
    ensures var end := RunEndsAt(q, i);
            && (forall p :: i <= p < end ==> Joins(q[p]) && !OpensAt(q, p))
            && (end < |q| ==> !Joins(q[end]) || OpensAt(q, end))
    decreases |q| - i
  {
    if i < |q| {
      CharactersAgree(q[i]);
      if RunsOn(q, i) {
        RunJoins(q, i + 1);
      }
    }
  }

  // ---------------------------------------------------------------------------------------------
  // Steps

  /** What lies from `at` to `end` when a step makes one token of a kind of it.  */
  ghost predicate IsKind(q: string, kind: Kind, at: nat, end: nat) {
    at < end <= |q| &&
    match kind
    case String => IsStringSpan(q, at, end)
    case QuotedIdentifier => q[at] == '"' && Closes(q, at + 1, end, '"') && at + 2 < end
    case Terminator => q[at] == ';' && end == at + 1
    case Number => exists run: nat :: IsNumberSpan(q, at, end, run)
    case Operator => IsOperator(q, at, end)
    case _ => false
  }

  /** One of the letters that may stand before a quote.  */
  predicate IsLead(c: char) {
    c in {'N', 'n', 'X', 'x', 'B', 'b', 'E', 'e'}
  }

  /** A string: plain, with a letter before the quote, or quoted by a tag.  Backslashes count after an E.  */
  ghost predicate IsStringSpan(q: string, at: nat, end: nat) {
    at < |q| &&
    (|| (q[at] == '\'' && Closes(q, at + 1, end, '\''))
     || (IsLead(q[at]) && Has(q, at + 1, '\'') && LeadCloses(q, at, end))
     || exists tag :: Tagged(q, at, end, tag))
  }

  ghost predicate LeadCloses(q: string, at: nat, end: nat)
    requires at < |q|
  {
    if Exponent(q[at]) then ClosesEscaped(q, at + 2, end) else Closes(q, at + 2, end, '\'')
  }

  ghost predicate OpensTag(q: string, at: nat) {
    exists tag :: IsTag(tag) && TagAt(q, at, tag)
  }

  /** The step that the text at a position spells.  */
  ghost predicate Spells(q: string, at: nat, step: Step)
    requires at < |q|
  {
    match step
    case Blank => Spacing(q[at])
    case Line(end) => IsLine(q, at, end)
    case Block(end) => IsBlock(q, at, end)
    case One(kind, end) => IsKind(q, kind, at, end)
    case Word(end) => IsWordSpan(q, at, end) && !(IsLead(q[at]) && Has(q, at + 1, '\''))
    case Operators(end) => IsRun(q, at, end)
    case Dollar => q[at] == '$' && at + 1 < |q| && !OpensTag(q, at)
    case LoneDollar => q[at] == '$' && at + 1 == |q|
    case Trouble(why) =>
      match why
      case OpenComment => OpensAt(q, at) && forall end: nat :: !IsBlock(q, at, end)
      case OpenString =>
        || (q[at] == '\'' && NeverCloses(q, at + 1, '\''))
        || (IsLead(q[at]) && Has(q, at + 1, '\'') && forall end: nat :: !LeadCloses(q, at, end))
      case OpenName => q[at] == '"' && NeverCloses(q, at + 1, '"')
      case EmptyName => q[at] == '"' && Closes(q, at + 1, at + 2, '"')
  }

  /** Which characters a step of each kind begins with.  */
  ghost predicate Fronts(q: string, at: nat, step: Step)
    requires at < |q|
  {
    var lead := IsLead(q[at]) && Has(q, at + 1, '\'');
    match step
    case Blank => Spacing(q[at])
    case Line(_) => Has(q, at, '-') && Has(q, at + 1, '-')
    case Block(_) => OpensAt(q, at)
    case One(kind, _) =>
      (match kind
       case String => q[at] == '\'' || lead || q[at] == '$'
       case QuotedIdentifier => q[at] == '"'
       case Terminator => q[at] == ';'
       case Number => Numeric(q[at])
       case Operator => (Lone(q[at]) || Joins(q[at])) && !(Has(q, at, '-') && Has(q, at + 1, '-')) && !OpensAt(q, at)
       case _ => false)
    case Word(_) => Letterlike(q[at]) && !Digit(q[at]) && !lead
    case Operators(_) => (Lone(q[at]) || Joins(q[at])) && !(Has(q, at, '-') && Has(q, at + 1, '-')) && !OpensAt(q, at)
    case Dollar => q[at] == '$'
    case LoneDollar => q[at] == '$'
    case Trouble(why) =>
      match why
      case OpenComment => OpensAt(q, at)
      case OpenString => q[at] == '\'' || lead
      case OpenName => q[at] == '"'
      case EmptyName => q[at] == '"'
  }

  lemma SpellsFront(q: string, at: nat, step: Step)
    requires at < |q| && Spells(q, at, step)
    ensures Fronts(q, at, step)
  {
    hide Closes, ClosesEscaped, LongMark, Balance, GoesOn, IsTag;
    LongMarkIs(q, at);
  }

  // Each kind of step, both ways.

  lemma QuoteSpells(q: string, at: nat, step: Step)
    requires at < |q| && q[at] == '\''
    ensures StepAt(q, at) == step <==> Spells(q, at, step)
  {
    hide StringEnd, Closes, IsBlock, IsLine;
    if Spells(q, at, step) {
      SpellsFront(q, at, step);
    }
    var next := at + 1;
    forall end: nat ensures StringEnd(q, next, false) == Some(end) <==> Closes(q, next, end, '\'') {
      StringCloses(q, next, end);
    }
    ClosesForward(q, next, '\'');
  }

  lemma ClosesForward(q: string, i: nat, mark: char)
    ensures forall end: nat :: Closes(q, i, end, mark) ==> i < end <= |q|
  {}

  lemma NameSpells(q: string, at: nat, step: Step)
    requires at < |q| && q[at] == '"'
    ensures StepAt(q, at) == step <==> Spells(q, at, step)
  {
    hide NameEnd, Closes, IsBlock, IsLine;
    if Spells(q, at, step) {
      SpellsFront(q, at, step);
    }
    var next := at + 1;
    forall end: nat ensures NameEnd(q, next) == Some(end) <==> Closes(q, next, end, '"') {
      NameCloses(q, next, end);
    }
    ClosesForward(q, next, '"');
  }

  /** What opens a tag, closes it at the next dollar.  */
  lemma OpensTagIs(q: string, at: nat)
    requires Has(q, at, '$') && at + 1 < |q|
    ensures OpensTag(q, at) <==> !IsDigit(q[at + 1]) && TagEnd(q, at + 1).Some?
    ensures OpensTag(q, at) ==> forall tag :: IsTag(tag) && TagAt(q, at, tag) ==> tag == q[at + 1..TagEnd(q, at + 1).value]
  {
    TagCloses(q, at + 1);
    var close := TagEnd(q, at + 1);
    if !IsDigit(q[at + 1]) && close.Some? {
      TagOpens(q, at, close.value);
    }
    forall tag | IsTag(tag) && TagAt(q, at, tag)
      ensures close.Some? && tag == q[at + 1..close.value] && !IsDigit(q[at + 1])
    {
      TagFound(q, at + 1, at + 1 + |tag|, tag);
    }
  }

  lemma {:induction false} TagFound(q: string, i: nat, close: nat, tag: string)
    requires i <= close < |q| && q[i..close] == tag && q[close] == '$'
    requires forall k :: 0 <= k < |tag| ==> IsTagChar(tag[k])
    ensures TagEnd(q, i) == Some(close)
    decreases close - i
  {
    if i < close {
      assert q[i] == tag[0] && q[i + 1..close] == tag[1..];
      TagFound(q, i + 1, close, tag[1..]);
    }
  }

  lemma DollarSpells(q: string, at: nat, step: Step)
    requires at < |q| && q[at] == '$'
    ensures StepAt(q, at) == step <==> Spells(q, at, step)
  {
    hide TagEnd, DollarEnd, IsBlock, IsLine, IsTag, TagAt, Closes;
    if Spells(q, at, step) {
      SpellsFront(q, at, step);
    }
    NoTagAtEnd(q, at);
    if at + 1 < |q| {
      OpensTagIs(q, at);
      if OpensTag(q, at) {
        var close := TagEnd(q, at + 1).value;
        TagCloses(q, at + 1);
        TagSpelled(q, at, close);
        var tag := q[at + 1..close];
        var end := StepEnd(at, StepAt(q, at));
        assert Tagged(q, at, end, tag);
        forall other: string, to: nat | Tagged(q, at, to, other) ensures other == tag && to == end {
          TaggedOnce(q, at, tag, end, to);
        }
      }
      assert !OpensTag(q, at) ==> forall tag: string, end: nat :: !Tagged(q, at, end, tag);
    }
  }

  lemma NoTagAtEnd(q: string, at: nat)
    ensures at + 1 == |q| ==> forall tag: string :: !TagAt(q, at, tag)
  {}

  lemma TaggedOnce(q: string, at: nat, tag: string, end: nat, other: nat)
    requires Tagged(q, at, end, tag) && Tagged(q, at, other, tag)
    ensures end == other
  {
    hide TagAt, IsTag;
    var body := at + |tag| + 2;
    if exists p :: body <= p && TagAt(q, p, tag) {
      var mine, theirs := end - |tag| - 2, other - |tag| - 2;
      assert TagAt(q, mine, tag) && TagAt(q, theirs, tag);
    }
  }

  lemma TagSpelled(q: string, at: nat, close: nat)
    requires at + 1 <= close < |q| && q[at] == '$' && q[close] == '$' && !IsDigit(q[at + 1])
    requires forall k :: at + 1 <= k < close ==> q[k] != '$' && IsTagChar(q[k])
    ensures var tag := q[at + 1..close];
            var end := DollarEnd(q, close + 1, tag);
            Tagged(q, at, if end.Some? then end.value else |q|, tag)
  {
    hide DollarEnd, TagAt, IsTag;
    var tag := q[at + 1..close];
    TagOpens(q, at, close);
    DollarCloses(q, close + 1, tag);
    var end := DollarEnd(q, close + 1, tag);
    if end.Some? {
      assert TagAt(q, end.value - |tag| - 2, tag);
    }
  }

  lemma TagOpens(q: string, at: nat, close: nat)
    requires at + 1 <= close < |q| && q[at] == '$' && q[close] == '$' && !IsDigit(q[at + 1])
    requires forall k :: at + 1 <= k < close ==> q[k] != '$' && IsTagChar(q[k])
    ensures var tag := q[at + 1..close]; IsTag(tag) && TagAt(q, at, tag) && '$' !in tag
  {}

  lemma LineSpells(q: string, at: nat, step: Step)
    requires Has(q, at, '-') && Has(q, at + 1, '-')
    ensures StepAt(q, at) == step <==> Spells(q, at, step)
  {
    hide LineEnd, IsBlock, Closes;
    if Spells(q, at, step) {
      SpellsFront(q, at, step);
    }
    LineStops(q, at + 2);
    assert IsLine(q, at, LineEnd(q, at + 2));
    forall end: nat | IsLine(q, at, end) ensures end == LineEnd(q, at + 2) {}
    assert q[at..at + 2] == "--";
  }

  lemma BlockSpells(q: string, at: nat, step: Step)
    requires OpensAt(q, at)
    ensures StepAt(q, at) == step <==> Spells(q, at, step)
  {
    hide BlockEnd, IsBlock, Closes, IsLine;
    if Spells(q, at, step) {
      SpellsFront(q, at, step);
    }
    var inner := at + 2;
    forall end: nat ensures BlockEnd(q, inner, 1) == Some(end) <==> IsBlock(q, at, end) {
      BlockIs(q, at, end);
    }
    assert q[at..at + 2] == "/*";
  }

  /** The first character of anything else is plain.  */
  predicate Ordinary(q: string, at: nat)
    requires at < |q|
  {
    && q[at] != '\'' && q[at] != '"' && q[at] != ';' && q[at] != '$' && !Spacing(q[at])
    && !(Has(q, at, '-') && Has(q, at + 1, '-')) && !OpensAt(q, at)
  }

  /** The step at a mark.  */
  lemma MarkStep(q: string, at: nat)
    requires at < |q| && Ordinary(q, at) && Mark(q[at]) && q[at] != '.'
    ensures var long := LongMark(q, at);
            StepAt(q, at) ==
              if long > 0 then
                if at + long < |q| && Joins(q[at + long]) then Operators(RunEndsAt(q, at + 1))
                else One(Kind.Operator, at + long)
              else if Lone(q[at]) then One(Kind.Operator, at + 1)
              else Operators(RunEndsAt(q, at + 1))
    ensures LongMark(q, at) > 0 ==> LongMark(q, at) <= 3 && at + LongMark(q, at) <= |q|
    ensures Lone(q[at]) || Joins(q[at])
  {
    hide RunEndsAt;
    CharactersAgree(q[at]);
    LongMarkIs(q, at);
    if at + Special(q, at) < |q| {
      CharactersAgree(q[at + Special(q, at)]);
    }
  }

  lemma MarkSpells(q: string, at: nat, step: Step)
    requires at < |q| && Ordinary(q, at) && Mark(q[at]) && q[at] != '.'
    ensures StepAt(q, at) == step <==> Spells(q, at, step)
  {
    hide StepAt, RunEndsAt, IsBlock, IsLine, Closes, ClosesEscaped, IsNumberSpan, Tagged, LongMark, IsRun;
    if Spells(q, at, step) {
      SpellsFront(q, at, step);
    }
    MarkStep(q, at);
    LongSafe(q, at);
    RunOnce(q, at);
  }

  lemma LongSafe(q: string, at: nat)
    requires at < |q|
    ensures LongMark(q, at) > 0 ==> !Lone(q[at]) || q[at] == '-'
  {}

  /** A run is there exactly when no operator of its own is, and then it is the one the scan finds.  */
  lemma RunOnce(q: string, at: nat)
    requires at < |q| && Ordinary(q, at) && Mark(q[at]) && q[at] != '.'
    ensures forall end: nat :: IsRun(q, at, end) <==> StepAt(q, at) == Operators(end)
  {
    hide StepAt, LongMark, RunEndsAt;
    MarkStep(q, at);
    RunJoins(q, at + 1);
    LongSafe(q, at);
    var run := RunEndsAt(q, at + 1);
    forall end: nat ensures IsRun(q, at, end) <==> StepAt(q, at) == Operators(end) {
      if IsRun(q, at, end) {
        assert end == run;
      }
    }
  }

  lemma NoTagHere(q: string, at: nat)
    requires at < |q| && q[at] != '$'
    ensures forall tag: string, end: nat :: !Tagged(q, at, end, tag)
  {}

  lemma NoNumberHere(q: string, at: nat)
    requires at < |q| && !Numeric(q[at])
    ensures forall end: nat, run: nat :: !IsNumberSpan(q, at, end, run)
  {}

  lemma NumberSpells(q: string, at: nat, step: Step)
    requires at < |q| && Numeric(q[at])
    ensures StepAt(q, at) == step <==> Spells(q, at, step)
  {
    hide NumberRun, GiveBack, GoesOn, IsBlock, Closes, ClosesEscaped, Tagged;
    if Spells(q, at, step) {
      SpellsFront(q, at, step);
    }
    CharactersAgree(q[at]);
    NoTagHere(q, at);
    NumberIs(q, at);
    var mine, reach := NumberEnd(q, at, at + 1), NumberRun(q, at, at + 1);
    forall end: nat, run: nat | IsNumberSpan(q, at, end, run) ensures end == mine {
      NumberOnce(q, at, end, run, mine, reach);
    }
    assert LongMark(q, at) == 0 by { LongMarkIs(q, at); }
  }

  lemma NumberOnce(q: string, start: nat, end: nat, run: nat, other: nat, reach: nat)
    requires IsNumberSpan(q, start, end, run) && IsNumberSpan(q, start, other, reach)
    ensures end == other
  {
    hide GoesOn;
  }

  lemma LetterSpells(q: string, at: nat, step: Step)
    requires at < |q| && Letterlike(q[at]) && !Digit(q[at])
    ensures StepAt(q, at) == step <==> Spells(q, at, step)
  {
    hide StringEnd, WordEnd, IsBlock, Closes, ClosesEscaped, Tagged, IsNumberSpan;
    if Spells(q, at, step) {
      SpellsFront(q, at, step);
    }
    CharactersAgree(q[at]);
    NoTagHere(q, at);
    NoNumberHere(q, at);
    LongMarkIs(q, at);
    if IsLead(q[at]) && Has(q, at + 1, '\'') {
      LeadClosesIs(q, at);
    } else {
      WordStops(q, at + 1);
      var mine := WordEnd(q, at + 1);
      assert IsWordSpan(q, at, mine);
      forall end: nat | IsWordSpan(q, at, end) ensures end == mine {}
    }
  }

  lemma LeadClosesIs(q: string, at: nat)
    requires at + 2 <= |q|
    ensures forall end: nat :: StringEnd(q, at + 2, IsExponent(q[at])) == Some(end) <==> LeadCloses(q, at, end)
    ensures forall end: nat :: LeadCloses(q, at, end) ==> at + 2 < end <= |q|
  {
    hide StringEnd;
    forall end: nat ensures StringEnd(q, at + 2, IsExponent(q[at])) == Some(end) <==> LeadCloses(q, at, end) {
      StringCloses(q, at + 2, end);
      EscapedCloses(q, at + 2, end);
    }
  }

  /** The step at a position is the one its text spells, and no other.  */
  lemma StepIsSpelled(q: string, at: nat, step: Step)
    requires at < |q|
    ensures StepAt(q, at) == step <==> Spells(q, at, step)
  {
    hide StepAt, Spells;
    if q[at] == '\'' {
      QuoteSpells(q, at, step);
    } else if q[at] == '"' {
      NameSpells(q, at, step);
    } else if q[at] == '$' {
      DollarSpells(q, at, step);
    } else if Has(q, at, '-') && Has(q, at + 1, '-') {
      LineSpells(q, at, step);
    } else if OpensAt(q, at) {
      BlockSpells(q, at, step);
    } else if Spacing(q[at]) || q[at] == ';' {
      PlainSpells(q, at, step);
    } else if Numeric(q[at]) {
      NumberSpells(q, at, step);
    } else if Mark(q[at]) {
      MarkSpells(q, at, step);
    } else {
      LetterSpells(q, at, step);
    }
  }

  lemma PlainSpells(q: string, at: nat, step: Step)
    requires at < |q| && (Spacing(q[at]) || q[at] == ';')
    ensures StepAt(q, at) == step <==> Spells(q, at, step)
  {
    hide IsBlock, Closes, ClosesEscaped, Tagged, IsNumberSpan;
    if Spells(q, at, step) {
      SpellsFront(q, at, step);
    }
    CharactersAgree(q[at]);
    NoTagHere(q, at);
    NoNumberHere(q, at);
    LongMarkIs(q, at);
  }
}
