/** How query text falls into tokens, as functions of the position in it.  A character stands for a byte.  */
module Lexing {
  import opened RuleTable
  import opened Meaning

  // ---------------------------------------------------------------------------------------------
  // Characters

  predicate IsSpace(c: char) {
    c == ' ' || c == '\t' || c == '\n' || c == '\U{000B}' || c == '\U{000C}' || c == '\r'
  }

  predicate IsBreak(c: char) {
    c == '\n' || c == '\r'
  }

  predicate IsDigit(c: char) {
    '0' <= c <= '9'
  }

  /** Always a token of its own.  */
  predicate IsSingle(c: char) {
    c in "(){}[],?$-#"
  }

  /** Every ASCII punctuation character but the underscore.  */
  predicate IsPunctuation(c: char) {
    c != '_' && ('!' <= c <= '/' || ':' <= c <= '@' || '[' <= c <= '`' || '{' <= c <= '~')
  }

  /** Always ends a run.  */
  predicate EndsRun(c: char) {
    c == '\'' || c == '-' || c == ';' || c == '"' || c == '.'
  }

  predicate InRun(c: char) {
    !IsSingle(c) && !EndsRun(c) && IsPunctuation(c)
  }

  predicate IsWordChar(c: char) {
    !IsSingle(c) && !IsPunctuation(c) && !IsSpace(c) && !EndsRun(c)
  }

  predicate StartsNumber(c: char) {
    IsDigit(c) || c == '.'
  }

  predicate IsExponent(c: char) {
    c == 'e' || c == 'E'
  }

  predicate IsPrefix(c: char) {
    c in "NnXxEeBb"
  }

  predicate IsTagChar(c: char) {
    IsLetter(c) || IsDigit(c) || c == '_' || c as int >= 128
  }

  /** `c` is at `i`.  */
  predicate Has(q: string, i: nat, c: char) {
    i < |q| && q[i] == c
  }

  // ---------------------------------------------------------------------------------------------
  // Where each kind of thing ends

  function WordEnd(q: string, i: nat): (end: nat)
    requires i <= |q|
    ensures i <= end <= |q|
    decreases |q| - i
  {
    if i < |q| && (q[i] == '$' || IsWordChar(q[i])) then WordEnd(q, i + 1) else i
  }

  /** A run goes on, and does not run into a comment.  */
  predicate RunsOn(q: string, i: nat) {
    i < |q| && InRun(q[i]) && !(q[i] == '/' && Has(q, i + 1, '*'))
  }

  function RunEndsAt(q: string, i: nat): (end: nat)
    requires i <= |q|
    ensures i <= end <= |q|
    decreases |q| - i
  {
    if RunsOn(q, i) then RunEndsAt(q, i + 1) else i
  }

  /** Past the line break, or at the end.  */
  function LineEnd(q: string, i: nat): (end: nat)
    requires i <= |q|
    ensures i <= end <= |q|
    decreases |q| - i
  {
    if i == |q| then i else if IsBreak(q[i]) then i + 1 else LineEnd(q, i + 1)
  }

  /** Past the end of a block comment that is `depth` deep here.  */
  function BlockEnd(q: string, i: nat, depth: nat): (end: Option<nat>)
    requires i <= |q| && 0 < depth
    ensures end.Some? ==> i < end.value <= |q|
    decreases |q| - i
  {
    if i == |q| then None
    else if q[i] == '/' && Has(q, i + 1, '*') then BlockEnd(q, i + 2, depth + 1)
    else if q[i] == '*' && Has(q, i + 1, '/') then (if depth == 1 then Some(i + 2) else BlockEnd(q, i + 2, depth - 1))
    else BlockEnd(q, i + 1, depth)
  }

  /** Past the closing quote of a string, doubled quotes and, with `escapes`, escaped characters inside.  */
  function StringEnd(q: string, i: nat, escapes: bool): (end: Option<nat>)
    requires i <= |q|
    ensures end.Some? ==> i < end.value <= |q|
    decreases |q| - i
  {
    if i == |q| then None
    else if escapes && q[i] == '\\' && i + 1 < |q| then StringEnd(q, i + 2, escapes)
    else if q[i] != '\'' then StringEnd(q, i + 1, escapes)
    else if Has(q, i + 1, '\'') then StringEnd(q, i + 2, escapes)
    else Some(i + 1)
  }

  /** Past the closing quote of a quoted name.  */
  function NameEnd(q: string, i: nat): (end: Option<nat>)
    requires i <= |q|
    ensures end.Some? ==> i < end.value <= |q|
    decreases |q| - i
  {
    if i == |q| then None
    else if q[i] != '"' then NameEnd(q, i + 1)
    else if Has(q, i + 1, '"') then NameEnd(q, i + 2)
    else Some(i + 1)
  }

  /** The dollar that closes an opening tag.  */
  function TagEnd(q: string, i: nat): (close: Option<nat>)
    requires i <= |q|
    ensures close.Some? ==> i <= close.value < |q|
    decreases |q| - i
  {
    if i == |q| then None
    else if q[i] == '$' then Some(i)
    else if !IsTagChar(q[i]) then None
    else TagEnd(q, i + 1)
  }

  function DollarAt(q: string, i: nat): (at: nat)
    requires i <= |q|
    ensures i <= at <= |q|
    decreases |q| - i
  {
    if i < |q| && q[i] != '$' then DollarAt(q, i + 1) else i
  }

  /** Past the tag that closes a dollar-quoted string.  */
  function DollarEnd(q: string, i: nat, tag: string): (end: Option<nat>)
    requires i <= |q|
    ensures end.Some? ==> i < end.value <= |q|
    decreases |q| - i
  {
    if i == |q| then None
    else if q[i] == '$' && i + 1 < |q| && DollarAt(q, i + 1) < |q| && q[i + 1..DollarAt(q, i + 1)] == tag then
      Some(DollarAt(q, i + 1) + 1)
    else DollarEnd(q, i + 1, tag)
  }

  /** A number that started at `start` takes in the character at `i`.  */
  predicate InNumber(q: string, start: nat, i: nat)
    requires start < i <= |q|
  {
    i < |q| &&
    (|| StartsNumber(q[i])
     || (q[i] == '_' && i + 1 < |q| && StartsNumber(q[i + 1]))
     || (IsExponent(q[i]) && !IsExponent(q[i - 1]) && (IsDigit(q[start]) || IsDigit(q[i - 1])))
     || ((q[i] == '+' || q[i] == '-') && IsExponent(q[i - 1])))
  }

  function NumberRun(q: string, start: nat, i: nat): (end: nat)
    requires start < i <= |q|
    ensures i <= end <= |q|
    decreases |q| - i
  {
    if InNumber(q, start, i) then NumberRun(q, start, i + 1) else i
  }

  /** Gives back what is on the end that is neither a digit nor a dot.  */
  function GiveBack(q: string, start: nat, i: nat): (end: nat)
    requires start < i <= |q| && StartsNumber(q[start])
    ensures start < end <= i && StartsNumber(q[end - 1])
    decreases i
  {
    if StartsNumber(q[i - 1]) then i else GiveBack(q, start, i - 1)
  }

  /** A number gives nothing back at the end of the text.  */
  function NumberEnd(q: string, start: nat, i: nat): (end: nat)
    requires start < i <= |q| && StartsNumber(q[start])
    ensures start < end <= |q|
  {
    var run := NumberRun(q, start, i);
    if run == |q| then run else GiveBack(q, start, run)
  }

  /** How long the operator that is looked for before any run is.  */
  function Special(q: string, i: nat): (len: nat)
    requires i < |q|
    ensures i + len <= |q|
  {
    if q[i] == '-' && Has(q, i + 1, '>') && Has(q, i + 2, '>') then 3
    else if q[i] == ':' && Has(q, i + 1, ':') then 2
    else if q[i] == ':' && Has(q, i + 1, '=') then 2
    else if q[i] == '-' && Has(q, i + 1, '>') then 2
    else if q[i] == '*' && Has(q, i + 1, '*') then 2
    else if q[i] == '/' && Has(q, i + 1, '/') then 2
    else 0
  }

  // ---------------------------------------------------------------------------------------------
  // One step

  datatype Trouble = OpenComment | OpenString | OpenName | EmptyName

  datatype Step =
    | Blank                               // one character of space
    | Line(end: nat)                      // a line comment
    | Block(end: nat)                     // a block comment
    | One(kind: Kind, end: nat)           // one token
    | Word(end: nat)                      // a bare word
    | Operators(end: nat)                 // a run of operator characters
    | Dollar                              // a dollar that is a token of its own
    | LoneDollar                          // a dollar that ends the text
    | Trouble(why: Trouble)

  function Opening(end: Option<nat>, kind: Kind, why: Trouble): Step {
    match end
    case None => Step.Trouble(why)
    case Some(e) => One(kind, e)
  }

  /** What a block comment ending there is.  */
  function Commented(end: Option<nat>): Step {
    match end
    case None => Step.Trouble(OpenComment)
    case Some(e) => Block(e)
  }

  /** What a dollar-quoted string ending there is: one that never ends takes the rest.  */
  function Quoted(q: string, end: Option<nat>): Step {
    match end
    case None => One(Kind.String, |q|)
    case Some(e) => One(Kind.String, e)
  }

  /** What a quoted name that starts at `at` and ends there is.  */
  function Naming(at: nat, end: Option<nat>): Step {
    match end
    case None => Step.Trouble(OpenName)
    case Some(e) => if e == at + 2 then Step.Trouble(EmptyName) else One(Kind.QuotedIdentifier, e)
  }

  /** What a dollar starts.  */
  function DollarStep(q: string, at: nat): Step
    requires Has(q, at, '$')
  {
    if at + 1 == |q| then LoneDollar
    else if IsDigit(q[at + 1]) then Dollar
    else
      match TagEnd(q, at + 1)
      case None => Dollar
      case Some(close) => Quoted(q, DollarEnd(q, close + 1, q[at + 1..close]))
  }

  /** What the text at `at` starts with.  */
  function StepAt(q: string, at: nat): (step: Step)
    requires at < |q|
  {
    var c := q[at];
    if c == '\'' then Opening(StringEnd(q, at + 1, false), Kind.String, OpenString)
    else if c == '"' then Naming(at, NameEnd(q, at + 1))
    else if c == ';' then One(Kind.Terminator, at + 1)
    else if c == '$' then DollarStep(q, at)
    else if c == '-' && Has(q, at + 1, '-') then Line(LineEnd(q, at + 2))
    else if c == '/' && Has(q, at + 1, '*') then Commented(BlockEnd(q, at + 2, 1))
    else if IsSpace(c) then Blank
    else Plainly(q, at)
  }

  /** What is neither quoted, a comment nor space.  */
  function Plainly(q: string, at: nat): (step: Step)
    requires at < |q|
  {
    var c := q[at];
    if Special(q, at) > 0 then
      var next := at + Special(q, at);
      if next < |q| && InRun(q[next]) then Operators(RunEndsAt(q, at + 1)) else One(Kind.Operator, next)
    else if IsSingle(c) then One(Kind.Operator, at + 1)
    else if StartsNumber(c) then One(Kind.Number, NumberEnd(q, at, at + 1))
    else if IsPrefix(c) && Has(q, at + 1, '\'') then
      Opening(StringEnd(q, at + 2, IsExponent(c)), Kind.String, OpenString)
    else if IsPunctuation(c) then Operators(RunEndsAt(q, at + 1))
    else Step.Word(WordEnd(q, at + 1))
  }

  /** How far a step goes.  */
  function StepEnd(at: nat, step: Step): nat
    requires !step.Trouble?
  {
    match step
    case Blank => at + 1
    case Line(end) => end
    case Block(end) => end
    case One(_, end) => end
    case Word(end) => end
    case Operators(end) => end
    case Dollar => at + 1
    case LoneDollar => at + 1
  }

  lemma StepMoves(q: string, at: nat)
    requires at < |q| && !StepAt(q, at).Trouble?
    ensures at < StepEnd(at, StepAt(q, at)) <= |q|
  {}

  // ---------------------------------------------------------------------------------------------
  // Tokens

  datatype Lexed = Lexed(token: Token, start: nat, end: nat)

  /** What is remembered between tokens: where the last one ended, where a block comment started, and
      whether a dollar has just been made a token.  */
  datatype Past = Past(prev: Option<nat>, block: Option<nat>, dollar: bool)

  predicate HasBreak(s: string) {
    exists i :: 0 <= i < |s| && IsBreak(s[i])
  }

  /** A token whose flags describe the gap that ends at it.  */
  function Made(q: string, past: Past, kind: Kind, keyword: nat, start: nat, end: nat): Lexed
    requires start <= end <= |q| && (past.prev.Some? ==> past.prev.value <= start)
  {
    Lexed(
      Token(kind, keyword, q[start..end],
            past.prev.Some? && HasBreak(q[past.prev.value..start]),
            past.prev.Some? && past.block.Some? && past.prev.value <= past.block.value < start),
      start, end)
  }

  /** The number of a word in the table, however it is cased.  */
  function Lookup(keywords: seq<RuleTable.Word>, text: string): (n: nat)
    ensures n == NOT_A_KEYWORD || n < |keywords|
  {
    match FindWord(keywords, Lower(text))
    case Some(i) => i
    case None => NOT_A_KEYWORD
  }

  function FindWord(keywords: seq<RuleTable.Word>, text: string): (at: Option<nat>)
    ensures at.Some? ==> at.value < |keywords| && keywords[at.value].text == text
    ensures at.None? ==> forall i :: 0 <= i < |keywords| ==> keywords[i].text != text
  {
    if keywords == [] then None
    else if keywords[|keywords| - 1].text == text then Some(|keywords| - 1)
    else FindWord(keywords[..|keywords| - 1], text)
  }

  function WordKind(keywords: seq<RuleTable.Word>, n: nat): Kind {
    if n < |keywords| && keywords[n].classes != {} then Kind.Keyword else Kind.Identifier
  }

  predicate IsMarked(s: string) {
    exists i :: 0 <= i < |s| && s[i] in "~!@#%^&|`?"
  }

  /** Where the trailing plus signs of an unmarked run start.  */
  function PlusStart(q: string, start: nat, end: nat): (cut: nat)
    requires start <= end <= |q|
    ensures start <= cut <= end && forall k :: cut <= k < end ==> q[k] == '+'
    decreases end
  {
    if end > start && q[end - 1] == '+' then PlusStart(q, start, end - 1) else end
  }

  function Cut(q: string, start: nat, end: nat): (cut: nat)
    requires start <= end <= |q|
    ensures start <= cut <= end && forall k :: cut <= k < end ==> q[k] == '+'
  {
    if IsMarked(q[start..end]) then end else PlusStart(q, start, end)
  }

  /** One-character operators from `at` to `end`.  */
  function Singles(q: string, past: Past, at: nat, end: nat): (out: seq<Lexed>)
    requires at <= end <= |q| && (past.prev.Some? ==> past.prev.value <= at)
    decreases end - at
  {
    if at == end then []
    else
      [Made(q, past, Kind.Operator, NOT_A_KEYWORD, at, at + 1)]
      + Singles(q, past.(prev := Some(at + 1)), at + 1, end)
  }

  /** A run as tokens: its head, and each trailing plus on its own.  */
  function RunTokens(q: string, past: Past, start: nat, end: nat): (out: seq<Lexed>)
    requires start < end <= |q| && (past.prev.Some? ==> past.prev.value <= start)
  {
    var cut := Cut(q, start, end);
    if cut == start then Singles(q, past, start, end)
    else
      [Made(q, past, Kind.Operator, NOT_A_KEYWORD, start, cut)] + Singles(q, past.(prev := Some(cut)), cut, end)
  }

  /** What a step emits.  */
  function Emitted(q: string, keywords: seq<RuleTable.Word>, past: Past, at: nat): (out: seq<Lexed>)
    requires at < |q| && !StepAt(q, at).Trouble? && (past.prev.Some? ==> past.prev.value <= at)
  {
    StepMoves(q, at);
    match StepAt(q, at)
    case One(kind, end) => [Made(q, past, kind, NOT_A_KEYWORD, at, end)]
    case Word(end) =>
      var n := Lookup(keywords, q[at..end]);
      [Made(q, past, WordKind(keywords, n), n, at, end)]
    case Operators(end) => RunTokens(q, past, at, end)
    case Dollar => [Made(q, past, Kind.Operator, NOT_A_KEYWORD, at, at + 1)]
    case LoneDollar => [Made(q, past, Kind.Identifier, NOT_A_KEYWORD, at, at + 1)]
    case _ => []
  }

  /** What is remembered after a step.  A block comment right behind a dollar token goes unnoticed.  */
  function After(q: string, past: Past, at: nat): (r: Past)
    requires at < |q| && !StepAt(q, at).Trouble? && (past.prev.Some? ==> past.prev.value <= at)
    ensures r.prev.Some? ==> r.prev.value <= StepEnd(at, StepAt(q, at))
  {
    StepMoves(q, at);
    var step := StepAt(q, at);
    match step
    case Blank => past.(dollar := false)
    case Line(_) => past.(dollar := false)
    case Block(_) => Past(past.prev, if past.dollar then past.block else Some(at), false)
    case _ => Past(Some(StepEnd(at, step)), past.block, step.Dollar?)
  }

  datatype Tokens = Lexeds(out: seq<Lexed>) | Stopped(why: Trouble)

  function Prefixed(front: seq<Lexed>, rest: Tokens): Tokens {
    match rest
    case Lexeds(out) => Lexeds(front + out)
    case Stopped(why) => Stopped(why)
  }

  function EndToken(q: string): Lexed {
    Lexed(Token(Kind.EndOfInput, NOT_A_KEYWORD, [], false, false), |q|, |q|)
  }

  /** The tokens from `at` on.  */
  function Lex(q: string, keywords: seq<RuleTable.Word>, past: Past, at: nat): (r: Tokens)
    requires at <= |q| && (past.prev.Some? ==> past.prev.value <= at)
    decreases |q| - at
  {
    if at == |q| then Lexeds([EndToken(q)])
    else
      match StepAt(q, at)
      case Trouble(why) => Stopped(why)
      case step =>
        StepMoves(q, at);
        Prefixed(Emitted(q, keywords, past, at), Lex(q, keywords, After(q, past, at), StepEnd(at, step)))
  }

  const START: Past := Past(None, None, false)

  /** The tokens of a query.  */
  function LexQuery(q: string, keywords: seq<RuleTable.Word>): Tokens {
    Lex(q, keywords, START, 0)
  }
}
