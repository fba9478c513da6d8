/** The flat rule table, the tokens it is matched against, and what one node accepts.

    A `u64` FIRST set is modelled as the set of its one bits and a `u8` class mask as the set of its
    class numbers, so `a | b` is union and `a & key != 0` is membership.  */
module RuleTable {

  datatype Option<+T> = None | Some(value: T)

  predicate Distinct(names: seq<string>) {
    forall i, j :: 0 <= i < j < |names| ==> names[i] != names[j]
  }

  // ---------------------------------------------------------------------------------------------
  // Tokens

  datatype Kind =
    Identifier | QuotedIdentifier | Keyword | Number | String | Operator | Terminator | EndOfInput

  /** `keyword` is an index into the keyword table or `NOT_A_KEYWORD`; the two flags describe the gap
      before the token.  */
  datatype Token = Token(kind: Kind, keyword: nat, text: string, newline: bool, blockComment: bool)

  const NOT_A_KEYWORD: nat := 65535

  // ---------------------------------------------------------------------------------------------
  // Nodes

  /** One table node.  `start`/`len` delimit a span of the child list.  */
  datatype Node =
    | Keyword(index: nat)
    | Symbol(index: nat)
    | Rule(id: nat)
    | Sequence(start: nat, len: nat)
    | Choice(start: nat, len: nat)
    | Optional(child: nat)
    | Repeat(child: nat)
    | Identifier(suggestion: nat, reserved: bool)
    | Number
    | String
    | Operator
    | EndOfInput
    | KeywordClass(mask: set<nat>)
  {
    predicate Composite() {
      Rule? || Sequence? || Choice? || Optional? || Repeat?
    }
  }

  datatype Compiled = Compiled(name: string, root: nat, memoized: bool)

  /** A word of the keyword table with the classes it is in.  */
  datatype Word = Word(text: string, classes: set<nat>)

  function Spellings(keywords: seq<Word>): seq<string> {
    seq(|keywords|, i requires 0 <= i < |keywords| => keywords[i].text)
  }

  /** Everything the compiler builds before nullability and FIRST are solved.  */
  datatype Code = Code(
    nodes: seq<Node>,
    children: seq<nat>,
    rules: seq<Compiled>,
    symbols: seq<string>,
    keywords: seq<Word>)

  /** The generated table.  */
  datatype Table = Table(
    code: Code,
    nullable: seq<bool>,
    first: seq<set<nat>>,
    program: nat,
    topLevel: nat)

  /** Every index a node carries is in range, and no list is empty.  */
  predicate NodeOk(c: Code, node: Node) {
    match node
    case Keyword(i) => i < |c.keywords|
    case Symbol(i) => i < |c.symbols|
    case Rule(id) => id < |c.rules|
    case Sequence(start, len) => 0 < len && start + len <= |c.children|
    case Choice(start, len) => 0 < len && start + len <= |c.children|
    case Optional(child) => child < |c.nodes|
    case Repeat(child) => child < |c.nodes|
    case Identifier(suggestion, _) => suggestion < 11
    case _ => true
  }

  predicate CodeOk(c: Code) {
    && (forall n :: 0 <= n < |c.nodes| ==> NodeOk(c, c.nodes[n]))
    && (forall i :: 0 <= i < |c.children| ==> c.children[i] < |c.nodes|)
    && (forall r :: 0 <= r < |c.rules| ==> c.rules[r].root < |c.nodes|)
  }

  /** The span of the child list that a composite node owns.  */
  function Span(c: Code, start: nat, len: nat): (kids: seq<nat>)
    requires start + len <= |c.children|
    ensures |kids| == len
  {
    c.children[start..start + len]
  }

  // ---------------------------------------------------------------------------------------------
  // FIRST bits

  const KIND_BITS: nat := 6
  const BUCKETS: nat := 58
  const FIRST_IDENT: nat := 0
  const FIRST_NUMBER: nat := 1
  const FIRST_STRING: nat := 2
  const FIRST_OPERATOR: nat := 3
  const FIRST_TERMINATOR: nat := 4
  const FIRST_END: nat := 5

  /** The FIRST bit that a keyword shares with others of its hash.  */
  function Bucket(index: nat): (bit: nat)
    ensures KIND_BITS <= bit < 64
  {
    KIND_BITS + index % BUCKETS
  }

  ghost const AllBits: set<nat> := set b: nat | b < 64

  const AnyKeyword: set<nat> := set b: nat | KIND_BITS <= b < 64

  /** The one FIRST bit a token sets.  */
  function TokenKey(t: Token): (bit: nat)
    ensures bit < 64
  {
    match t.kind
    case Identifier => FIRST_IDENT
    case QuotedIdentifier => FIRST_IDENT
    case Keyword => if t.keyword == NOT_A_KEYWORD then FIRST_IDENT else Bucket(t.keyword)
    case Number => FIRST_NUMBER
    case String => FIRST_STRING
    case Operator => FIRST_OPERATOR
    case Terminator => FIRST_TERMINATOR
    case EndOfInput => FIRST_END
  }

  /** The key at a position; past the last token it is the end of input.  */
  function KeyAt(tokens: seq<Token>, pos: nat): (bit: nat) {
    if pos < |tokens| then TokenKey(tokens[pos]) else FIRST_END
  }

  function SymbolFirst(text: string): (bits: set<nat>) {
    if text == ";" then {FIRST_TERMINATOR}
    else if text == "." then {FIRST_NUMBER, FIRST_OPERATOR}
    else {FIRST_OPERATOR}
  }

  /** The buckets of every word in one class.  */
  function ClassBuckets(keywords: seq<Word>, class_: nat): (bits: set<nat>) {
    set i: nat | i < |keywords| && class_ in keywords[i].classes :: Bucket(i)
  }

  const CLASSES: nat := 5
  const UNRESERVED: nat := 1
  const COLUMN_NAME: nat := 2
  const FUNC_NAME: nat := 3
  const TYPE_NAME: nat := 4

  /** Table and file name positions also take a single quoted string.  */
  predicate SupportsString(suggestion: nat) {
    suggestion == 3 || suggestion == 10
  }

  function AllowedClasses(suggestion: nat): (classes: set<nat>) {
    if suggestion == 7 then {TYPE_NAME}
    else if suggestion == 5 || suggestion == 6 then {TYPE_NAME, FUNC_NAME}
    else {COLUMN_NAME}
  }

  /** FIRST of a node that matches tokens directly.  */
  function TerminalFirst(c: Code, node: Node): (bits: set<nat>)
    requires NodeOk(c, node) && !node.Composite()
  {
    match node
    case Keyword(i) => if c.keywords[i].classes == {} then {FIRST_IDENT} else {Bucket(i)}
    case Symbol(i) => SymbolFirst(c.symbols[i])
    case Identifier(s, _) =>
      {FIRST_IDENT} + AnyKeyword + (if SupportsString(s) then {FIRST_STRING} else {})
    case Number => {FIRST_NUMBER}
    case String => {FIRST_STRING}
    case Operator => {FIRST_OPERATOR}
    case EndOfInput => {FIRST_END}
    case KeywordClass(mask) =>
      set k: nat, b | k < CLASSES && k in mask && b in ClassBuckets(c.keywords, k) :: b
  }

  // ---------------------------------------------------------------------------------------------
  // What a terminal accepts

  predicate IsPlainString(text: string) {
    text != [] && text[0] == '\''
  }

  const OPERATOR_CHARACTERS: string := "+-*/%^<>=~!@&|"

  const NOT_OPERATORS: seq<string> := [
    "->", "->>", "<=", ">=", "!=", "==", "<>", "~~", "~~*", "~~~", "~*", "!~~", "!~~*", "!~", "!~*"]

  predicate IsBareOperator(text: string) {
    && 2 <= |text|
    && text !in NOT_OPERATORS
    && forall i :: 0 <= i < |text| ==> text[i] in OPERATOR_CHARACTERS
  }

  function ClassesOf(c: Code, t: Token): (classes: set<nat>) {
    if t.keyword < |c.keywords| then c.keywords[t.keyword].classes else {}
  }

  /** Whether an identifier node takes this token.  */
  predicate IdentifierAccepts(c: Code, t: Token, suggestion: nat, reserved: bool) {
    var shaped := match t.kind
      case QuotedIdentifier => true
      case Identifier => true
      case Keyword => true
      case String => SupportsString(suggestion) && IsPlainString(t.text)
      case _ => false;
    && shaped
    && (reserved || t.kind != Kind.Keyword
        || UNRESERVED in ClassesOf(c, t) || ClassesOf(c, t) * AllowedClasses(suggestion) != {})
  }

  // ---------------------------------------------------------------------------------------------
  // Symbols are compared by a one byte code

  /** Where `text` first appears, or one past the end.  */
  function Position(symbols: seq<string>, text: string): (at: nat)
    ensures at <= |symbols|
    ensures at < |symbols| ==> symbols[at] == text
    ensures forall i :: 0 <= i < at ==> symbols[i] != text
  {
    if symbols == [] then 0 else if symbols[0] == text then 0 else 1 + Position(symbols[1..], text)
  }

  const NO_SYMBOL: nat := 255

  /** Which symbol a token spells, as a byte; 255 when it is none of them or its index does not fit.  */
  function SymbolCode(symbols: seq<string>, text: string): (code: nat) {
    var at := Position(symbols, text);
    if at < |symbols| && at <= 255 then at else NO_SYMBOL
  }

  predicate CodeAgrees(symbols: seq<string>, text: string, i: nat)
    requires i < |symbols|
  {
    SymbolCode(symbols, text) == i <==> text == symbols[i]
  }

  ghost function Longest(symbols: seq<string>): (n: nat)
    ensures forall i :: 0 <= i < |symbols| ==> |symbols[i]| <= n
  {
    if symbols == [] then 0
    else
      var rest := Longest(symbols[1..]);
      assert forall i :: 0 < i < |symbols| ==> symbols[i] == symbols[1..][i - 1];
      if |symbols[0]| > rest then |symbols[0]| else rest
  }

  /** Comparing codes is comparing text exactly as long as every index fits below the sentinel.  */
  lemma SymbolCodesAreExact(symbols: seq<string>)
    requires Distinct(symbols)
    ensures (forall text: string, i: nat :: i < |symbols| ==> CodeAgrees(symbols, text, i))
            <==> |symbols| <= 255
  {
    if |symbols| <= 255 {
      forall text: string, i: nat | i < |symbols| ensures CodeAgrees(symbols, text, i) {
        assert Position(symbols, text) == i || symbols[i] != text || Position(symbols, text) < i;
      }
    } else {
      var text := seq(Longest(symbols) + 1, _ => 'x');
      assert SymbolCode(symbols, text) == 255 && text != symbols[255];
      assert !CodeAgrees(symbols, text, 255);
    }
  }

  // ---------------------------------------------------------------------------------------------
  // What one node accepts

  /** Whether a one token terminal takes this token.  */
  predicate Accepts(c: Code, node: Node, t: Token)
    requires NodeOk(c, node) && !node.Composite()
  {
    match node
    case Keyword(i) => t.keyword == i
    case KeywordClass(mask) => t.kind == Kind.Keyword && ClassesOf(c, t) * mask != {}
    case Symbol(i) => SymbolCode(c.symbols, t.text) == i
    case Number => t.kind == Kind.Number && t.text != "."
    case Operator => t.kind == Kind.Operator && IsBareOperator(t.text)
    case EndOfInput => t.kind == Kind.EndOfInput
    case String => t.kind == Kind.String
    case Identifier(s, r) => IdentifierAccepts(c, t, s, r)
  }

  /** A literal that carries on the one before it: plain, after a line break, no block comment.  */
  predicate Continues(t: Token) {
    t.kind == Kind.String && t.newline && !t.blockComment && IsPlainString(t.text)
  }

  /** Where the run of continuing literals starting at `pos` ends.  */
  function RunEnd(tokens: seq<Token>, pos: nat): (end: nat)
    requires pos <= |tokens|
    ensures pos <= end <= |tokens|
    decreases |tokens| - pos
  {
    if pos < |tokens| && Continues(tokens[pos]) then RunEnd(tokens, pos + 1) else pos
  }

  /** Where a terminal that matches at `pos` ends.  Only a string literal takes several tokens.  */
  function TerminalEnd(c: Code, tokens: seq<Token>, node: Node, pos: nat): (end: Option<nat>)
    requires pos <= |tokens| && NodeOk(c, node) && !node.Composite()
    ensures end.Some? ==> pos < end.value <= |tokens|
  {
    if pos == |tokens| || !Accepts(c, node, tokens[pos]) then None
    else if node.String? && IsPlainString(tokens[pos].text) then Some(RunEnd(tokens, pos + 1))
    else Some(pos + 1)
  }

  // ---------------------------------------------------------------------------------------------
  // What the tokenizer guarantees

  /** How a word and its kind go together: a word with a class is a keyword token, one the
      table lists without any class is an identifier token that keeps its index.  */
  predicate WordOk(c: Code, t: Token) {
    && (t.kind == Kind.Keyword ==> t.keyword != NOT_A_KEYWORD)
    && (t.keyword != NOT_A_KEYWORD ==>
          && t.keyword < |c.keywords|
          && t.kind == (if c.keywords[t.keyword].classes == {} then Kind.Identifier else Kind.Keyword))
  }

  /** Which kind a token that passes for a symbol arrives as.  */
  predicate SymbolOk(c: Code, t: Token) {
    var code := SymbolCode(c.symbols, t.text);
    code < |c.symbols| ==> TokenKey(t) in SymbolFirst(c.symbols[code])
  }

  predicate WellKeyed(c: Code, t: Token) {
    WordOk(c, t) && SymbolOk(c, t)
  }

  predicate AllWellKeyed(c: Code, tokens: seq<Token>) {
    forall i :: 0 <= i < |tokens| ==> WellKeyed(c, tokens[i])
  }

  /** A terminal's FIRST set holds the key of every token it accepts.  */
  lemma TerminalFirstSound(c: Code, node: Node, t: Token)
    requires NodeOk(c, node) && !node.Composite()
    requires |c.keywords| <= NOT_A_KEYWORD
    requires WellKeyed(c, t) && Accepts(c, node, t)
    requires forall i :: 0 <= i < |c.keywords| ==> forall k :: k in c.keywords[i].classes ==> k < CLASSES
    ensures TokenKey(t) in TerminalFirst(c, node)
  {
    match node
    case KeywordClass(mask) =>
      var k :| k in ClassesOf(c, t) * mask;
      assert Bucket(t.keyword) in ClassBuckets(c.keywords, k);
    case _ =>
  }

  /** The symbol half of the keying assumption is exactly what the filter needs: every symbol node
      that accepts the token has its key in FIRST if and only if the token is keyed as assumed.  */
  lemma SymbolKeyingIsExact(c: Code, t: Token)
    ensures SymbolOk(c, t) <==>
            (forall i :: 0 <= i < |c.symbols| && Accepts(c, Symbol(i), t) ==>
                TokenKey(t) in TerminalFirst(c, Symbol(i)))
  {
    var code := SymbolCode(c.symbols, t.text);
    assert code < |c.symbols| ==> Accepts(c, Symbol(code), t);
  }

  /** Where codes tell the symbols apart it is about spelling: a token spelled like a symbol has a key
      in the symbol's FIRST.  */
  lemma SymbolOkBySpelling(c: Code, t: Token)
    requires |c.symbols| <= 255 && Distinct(c.symbols)
    ensures SymbolOk(c, t) <==> (t.text in c.symbols ==> TokenKey(t) in SymbolFirst(t.text))
  {
    SymbolCodesAreExact(c.symbols);
    if t.text in c.symbols {
      var i :| 0 <= i < |c.symbols| && c.symbols[i] == t.text;
      assert CodeAgrees(c.symbols, t.text, i);
    }
    var code := SymbolCode(c.symbols, t.text);
    assert code < |c.symbols| ==> CodeAgrees(c.symbols, t.text, code);
  }
}
