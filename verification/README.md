# Verified models of rudb's grammar pipeline and xtask algorithms

This project models the parts of rudb whose correctness is an argument rather than a reading, in Dafny, and
proves the arguments. `dafny verify dfyconfig.toml` checks all of it.

## The grammar pipeline

rudb parses SQL with a matcher that walks a table generated from a vendored grammar. The chain from the grammar's
text to a parse tree is modelled link by link, and each link is proved to change nothing.

1. **Text to rules.** `Reading.dfy` says how grammar text reads, as functions of what is left of the text.
   `GrammarParser.dfy` is the recursive descent parser with its cursor, proved to read exactly that.
   `Rendering.dfy` lays rules out in every way they can be spaced, commented, parenthesised and escaped, by code points;
   `RoundTrip.dfy` proves that every layout reads back as its rules, that whatever reads is canonical, and so that rules
   come from some text exactly when they are canonical.
2. **Text to keywords.** `KeywordScan.dfy` is the line scan that finds the grammar's quoted words and the table of
   words and classes. The scan is not the parser; it is proved to find exactly the words the parser finds on texts
   where the two read literals alike, and shown to miss one on a text where they do not.
3. **Rules to a table.** `Syntax.dfy` and `Meaning.dfy` say what rules mean: which definition a name resolves to, a
   body with its templates substituted, and parsing expression semantics over the result. `Reach.dfy` walks
   reachability, `Expansion.dfy` says when template calls end and when they call nothing, `Compiler.dfy` emits the
   flat table, `Preservation.dfy` proves that matching the table is matching the
   grammar, and `Generate.dfy` puts them together. `TerminalRules.dfy` says in tokens what the overridden names and the
   keyword classes match. `Generator.dfy` starts from the files.
4. **Nullability and FIRST.** `First.dfy` is the in-place fixpoint solver: it assigns rather than joins, and is proved
   to climb to the least solution within a bound. `Filter.dfy` proves what the solution promises and that filtering by
   it refines plain matching. `Progress.dfy` bounds repeats, and shows that the filter is invisible without left
   recursion and that with it the refinement is one-way. `LeadingTokens.dfy` proves that the solution has no bit without a
   token that earns it, save the stated excess at names.
5. **The matcher.** `Peg.dfy` is the plain semantics of a table. `Arena.dfy`, `Frames.dfy` and `MatcherInvariant.dfy`
   carry the invariant of the matcher of `Matcher.dfy`: a loop over an explicit stack, with the filter, a memo and an
   arena of linked nodes that lists share. It always stops, and it answers what the semantics answers, tree and all, or
   reports a nesting the depth cap really does not allow.
6. **Query text to tokens.** `Lexing.dfy` says how query text falls into tokens, step by step. `Tokenizer.dfy` is the
   nine-state scanner, stepping back where it does, proved to make exactly those tokens. `TokenLaws.dfy` proves that they
   tile the query and are keyed as the filter relies on, and `Gaps.dfy` what their two flags say of the gaps.
   `Spelling.dfy` says what every step spells without naming the scanner, and `SpelledTokens.dfy` does the same for every
   token of every query.
7. **End to end.** `Parse.dfy` states the matcher's result free of its machinery, and `EndToEnd.dfy` joins the ends: for
   a table generated from files, whatever the grammar in the files comes to for a query, at any depth, is what the parse
   reports unless it gives up, which it never does within its depth cap: its tree is the derivation, and an error means
   that there is none. Without the filter, or without left recursion, whatever is reported is what the grammar comes to.

Semantics of matching are indexed by nesting depth: `None` at a depth means that more nesting is needed, or that
matching never ends. FIRST sets and class masks are sets of bit positions. `RuleTable.dfy` holds the table and token
model. The theorems about parsing tokens take tokens that are keyed by what they spell (`RuleTable.WellKeyed`);
`TokenLaws.TokensKeyed` says exactly when the tokenizer's are, for a grammar whose symbols start with punctuation. Only
the filter needs it.

## The rest

* `Snappy.dfy`: the block compressor of the codec table, against a decoder written from sections 1 and 2 of the Snappy
  format description. What is written as a list of elements, round trip, size bound, and the exact limit of
  the literal header.
* `TopCount.dfy`: the bounded top count. A certified answer is the exact one if and only if the candidates fill it or nothing
  was skipped, with the short answer that is certified and wrong; and the partial sort behind the threshold.
* `EncodePass.dfy`: the encode pass as interleaved steps of workers over a shared counter.
* `Gate.dfy`: the reverse dependency closure, the layer rule, and the order of packages that follows from it.
* `Builder.dfy`: the arena builder of the bind fuzz target. `Walk` is a function over the arenas it builds, so every
  walk down from any node ends; and what its budget bounds.
* `UnicodeRuns.dfy`: the run tables of the two-stage code point lookup, that none is smaller, and what the stages hold.
* `Sha256.dfy`: the digest against FIPS 180-4. `Sha256Constants.dfy` derives the constants from the primes, and
  `Sha256Example.dfy` works out a published digest.
* `Ordering.dfy` and `Sets.dfy`: byte order, sorted insertion and sizes of sets, shared by the others.

## Where the code and its comments part

* The FIRST filter's comment says both modes must accept the same queries. With left recursion they need not:
  `Progress.FilterAnswersMore`. Without it they do, unless one of them gives up past the depth cap:
  `Progress.FilterIsInvisible`, `Parse.RankedReportIsPlain`, `Parse.RankedTablesAlwaysReport`. That condition goes one
  way: a left-recursive rule that no input leads into makes no difference either, and whether one does is a question about
  every input rather than about the table.
* The certificate's comment says a certified answer is exact. An answer with fewer rows than asked for need not be:
  `TopCount.CertifiedButShort`, with the exact condition in `TopCount.Buckets`.
* A literal over 2^24 bytes is written with its length cut off: `Snappy.LiteralReads` is an if and only if.
* A symbol's one-byte code stands for its text only up to 255 symbols: `RuleTable.SymbolCodesAreExact`.
  Matching is therefore modelled by codes, and the theorems about the grammar's meaning ask for that many at most.
* The walk refuses a grammar in which a name it meets is defined by nothing. No reference is then ever missing
  (`Reach.RuleNeverUnreached`), but a template may call an override or a keyword class that has no rule of its own:
  `Expansion.EndCallUndefined` is an input, and `Expansion.UndefinedExactlyWhenDangling` says when it happens.
* A template that calls itself and ignores its parameter passes reachability and sends the compiler into unbounded
  recursion: `Expansion.SelfCallOverflows` is an input. Expansion therefore carries a depth limit that stands for the
  native stack, and `Expansion.EndsExactlyWhenRanked` says exactly which grammars some limit is enough for.
* A lone dollar sign at the end of a query arrives as an identifier. With a `$` symbol in the grammar that token is not
  keyed as the symbol it spells, and the filter is then wrong about it: `TokenLaws.LoneDollarQuery` is an input
  and `TokenLaws.TokensKeyed` the exact condition.
* A block comment that touches a dollar token is not remembered in the flags of the next token, because the scanner looks
  for its opening one character early: `Gaps.DollarHidesComment` is an input, and `Gaps.QueryFlags` says of every token of
  every query when its flags are set.
* The fuzz builder's budget of 300 is commented as the number of arena nodes an input may build. Only expressions are
  charged, and building goes on when nothing is left. What does hold is 335 expressions and 11391 nodes, `Builder.Generate`.

## Model

| member | source | states |
|---|---|---|
| `GrammarParser.Parser.constructor` | xtask/src/grammar.rs:85-87 | the cursor starts before the whole text |
| `GrammarParser.Parser.SkipSpace` | xtask/src/grammar.rs:320-332 | space and comments are skipped, up to a nested walk to each line's end, and nothing else is |
| `GrammarParser.Parser.TakeName` | xtask/src/grammar.rs:303-318 | the longest name at the cursor, a leading percent sign included; with none, or a lone percent sign, the cursor stays put |
| `GrammarParser.Parser.LooksAtRule` | xtask/src/grammar.rs:281-301 | the lookahead says yes exactly when a name, perhaps a parameter, and an arrow follow, and does not move the cursor |
| `GrammarParser.Parser.ParseLiteral` | xtask/src/grammar.rs:226-252 | a literal reads as its text with escapes resolved, or as one of the two unterminated faults |
| `GrammarParser.Parser.ParseClass` | xtask/src/grammar.rs:254-275 | a character class is kept as written, flag included; a backslash that ends the file is the fault where the cursor steps past the end |
| `GrammarParser.Parser.ParsePrimary` | xtask/src/grammar.rs:192-224 | literal, class, group, capture, call or reference, a call only when the parenthesis touches the name |
| `GrammarParser.Parser.ParseSuffixed` | xtask/src/grammar.rs:171-190 | an operator counts only when it touches its operand, and a star is an optional repeat |
| `GrammarParser.Parser.ParsePrefixed` | xtask/src/grammar.rs:162-169 | a lookahead, or what follows |
| `GrammarParser.Parser.ParseSequence` | xtask/src/grammar.rs:143-160 | the loop gathers exactly the elements up to the next rule, a closing bracket, a slash or the end, and refuses none |
| `GrammarParser.Parser.ParseChoice` | xtask/src/grammar.rs:126-141 | the loop gathers exactly the branches, one branch standing for itself |
| `GrammarParser.Parser.ParseRule` | xtask/src/grammar.rs:107-124 | name, optional parameter, arrow and body, or the fault of the first that is missing |
| `GrammarParser.Parser.ParseFile` | xtask/src/grammar.rs:97-105 | the whole file reads as its rules in order or as the first fault, and always ends because every element moves the cursor |
| `RoundTrip.ReadsBack` | xtask/src/grammar.rs:97-360 | any list of rules, in any layout, reads back as itself: between any two pieces any run of tabs, newlines, form feeds, carriage returns, spaces and comments, any extra parentheses, any escapes; each body ends where the next head begins |
| `RoundTrip.ShownReadsBack` | xtask/src/grammar.rs:97-360 | in particular every canonical list of rules has a text, one rule to a line, that reads back as it |
| `RoundTrip.FileCanonical` | xtask/src/grammar.rs:97-318 | every rule any text reads as is canonical |
| `RoundTrip.Rewrites` | xtask/src/grammar.rs:97-360 | any text that reads, written out from what it read as, reads the same again |
| `RoundTrip.ReadableIsCanonical` | xtask/src/grammar.rs:97-360 | lists of rules that some text reads as are exactly the canonical ones |
| `RoundTrip.WNotRule` | xtask/src/grammar.rs:277-301 | no element of a body, however it is laid out, is taken for the start of a rule |
| `RoundTrip.NextRule` | xtask/src/grammar.rs:11-14 | a written body ends exactly where the next rule begins, whatever gap lies between, or at the end of the file |
| `Rendering.GapSkipped` | xtask/src/grammar.rs:320-332 | a gap of code points 9, 10, 12, 13 and 32 and of comments is skipped as if it were not there |
| `Rendering.CharactersAgree` | xtask/src/grammar.rs:303-332 | space is code points 9, 10, 12, 13 and 32, and names are made of code points 48 to 57, 65 to 90, 95 and 97 to 122 |
| `Rendering.NameByCharacters` | xtask/src/grammar.rs:303-318 | a text is a name if and only if it is such characters, at least one, perhaps after a percent sign |
| `Rendering.ClassByCharacters` | xtask/src/grammar.rs:254-275 | a class is any inside between brackets, a backslash taking the next character with it, perhaps with a flag |
| `Rendering.CharsRead` | xtask/src/grammar.rs:226-252 | a literal written character by character, any of them escaped and quotes and backslashes always, reads as those characters, whatever follows |
| `Rendering.ClassStops` | xtask/src/grammar.rs:254-275 | a class reads back as itself before anything that may touch it |
| `KeywordScan.ScanLine` | xtask/src/codegen.rs:205-232 | the index walk over a line finds exactly the quoted words of the line, an unclosed last quote included |
| `KeywordScan.FindEnd` | xtask/src/codegen.rs:218-222 | the inner loop stops at the first quote no backslash escapes, or past the end |
| `KeywordScan.GrammarLiterals` | xtask/src/codegen.rs:194-236 | the words of all files, and no others |
| `KeywordScan.ScansAgree` | xtask/src/codegen.rs:188-236 | on a text whose literals hold no comment sign, newline or escaped letter and whose classes hold no quote or comment sign, the words the parsed rules spell are exactly those the line scan finds |
| `KeywordScan.ScansPart` | xtask/src/ruletable.rs:473-481 | the file `A<-'\b'` reads, and its rules spell a word the scan of the file does not find, so the hypothesis on literals is needed |
| `KeywordScan.SameEnd` | xtask/src/codegen.rs:216-231 | inside a plain literal the scan stops at the quote the parser stops at, and a word reads the same |
| `KeywordScan.AddList` | xtask/src/codegen.rs:162-179 | a class list marks exactly its words, and is refused when empty or when an entry is no plain word |
| `KeywordScan.UsableByCode` | xtask/src/codegen.rs:162-179 | a list can be used if and only if some entry is not empty and all are ASCII letters, digits and underscores, by code point |
| `KeywordScan.KeywordTable` | xtask/src/codegen.rs:159-186 | a word's classes are exactly the lists it is in, every scanned word has a place even in no class, and the spellings strictly ascend |
| `Generator.ParseFiles` | xtask/src/grammar.rs:74-81 | the rules of the files in order, or the first fault |
| `Generator.AllScansAgree` | xtask/src/codegen.rs:181-183 | the words the rules of clean files spell are exactly the scanned words of the same files |
| `Generator.ExpandKnows` | xtask/src/ruletable.rs:469-482 | when the bodies spell only words of the table, no expansion at any depth meets an unknown word |
| `Generator.GenerateGrammar` | xtask/src/codegen.rs:41-48 | from files to table: a table comes out only for rules that read and lists that can be used; it serves those rules (least FIRST sets, both roots, exactly the listed rules memoized) with every word of lists and scan once in byte order; no refusal is for a name that did not survive, and with clean files none is for an unknown word; too many words is said only of a table that has too many |
| `Generate.IndexRules` | xtask/src/ruletable.rs:160-170 | the rules by name, refused exactly when a name is defined twice |
| `Generate.ReadOverrides` | xtask/src/ruletable.rs:172-175 | each overridden name gets the terminal of its last line, refused exactly when a line is not understood |
| `TerminalRules.KnownLines` | xtask/src/ruletable.rs:250-270 | a line is understood if and only if it names one of the four plain matchers, or one of the two identifier matchers with a known suggestion |
| `TerminalRules.OverriddenRule` | xtask/src/ruletable.rs:172-175 | in a generated table a surviving overridden name matches what its last line says: the number matcher takes one number that is not a dot, the string matcher a run of adjacent strings, and so on with the place and the reserved flag of identifiers |
| `TerminalRules.BuiltInRule` | xtask/src/ruletable.rs:54-61 | without a line the end of input and the five class rules take exactly the end of input and the keywords of their class |
| `Generate.Resolve` | xtask/src/ruletable.rs:172-193 | overrides beat the end of input matcher, which beats keyword classes, which beat bodies |
| `Generate.NumberRules` | xtask/src/ruletable.rs:196-197 | the surviving names and their numbers are inverse to each other |
| `Generate.NumberWords` | xtask/src/ruletable.rs:203-207 | a word's number is its place in the table |
| `Ordering.Sorted` | xtask/src/ruletable.rs:330-330 | the surviving names in strictly ascending byte order, each once |
| `Ordering.BeforeIsFirstDifference` | xtask/src/ruletable.rs:330-330 | one string is before another exactly when it is smaller where they first differ, or runs out there |
| `Reach.Visit` | xtask/src/ruletable.rs:321-328 | exactly the names not seen before are queued, each once, and a name nothing defines stops the walk |
| `Syntax.ReferencesAre` | xtask/src/ruletable.rs:338-358 | a body mentions a name exactly when some path of parts leads to a reference to it |
| `Syntax.CallsAre` | xtask/src/ruletable.rs:338-358 | and calls one exactly when some path leads to a call of it, arguments included |
| `Reach.Expose` | xtask/src/ruletable.rs:298-319 | what a rule leads to: its references, and through each call the template's other references and calls |
| `Reach.Walk` | xtask/src/ruletable.rs:279-331 | succeeds with the least set holding both roots and closed under what rules lead to, exactly when every rule in it is sound |
| `Reach.NeverUnreached` | xtask/src/ruletable.rs:385-392 | expanding a covered body never meets a reference that did not survive |
| `Reach.RuleNeverUnreached` | xtask/src/ruletable.rs:385-392 | no surviving rule, at any depth, fails for a name that did not survive |
| `Expansion.LimitKeeps` | xtask/src/ruletable.rs:443-467 | more depth changes an outcome only if it was running out of depth |
| `Expansion.CalledExpands` | xtask/src/ruletable.rs:459-466 | whatever a finished body calls was itself finished one level down |
| `Expansion.RankedNeverOverflows` | xtask/src/ruletable.rs:443-467 | calls that rank below the depth allowed never run out of it, whatever templates without a rank do |
| `Expansion.DepthsRank` | xtask/src/ruletable.rs:443-467 | where every surviving rule finishes, the least depth at which a template's body does ranks the templates they call |
| `Expansion.EndsExactlyWhenRanked` | xtask/src/ruletable.rs:443-467 | when nothing else is wrong, some depth is enough for every surviving rule if and only if the templates called from surviving rules can be ranked so that each calls only lower ones |
| `Expansion.WalkRefusesNestedTemplates` | xtask/src/ruletable.rs:302-319 | when templates use their parameters and no parameter names a rule, one level of calls is enough for every surviving rule |
| `Expansion.SelfCallNeverExpands` | xtask/src/ruletable.rs:443-467 | a call of a template that calls itself and ignores its parameter runs out of any depth |
| `Expansion.SelfCallOverflows` | xtask/src/ruletable.rs:298-319 | `Program <- T('<')`, `TopLevelStatement <- '<'`, `T(D) <- T('<')` passes the walk, and no depth is enough for `Program` |
| `Expansion.UndefinedIsDangling` | xtask/src/ruletable.rs:450-453 | after the walk a call of a name that has no rule is met only where a template that a surviving rule calls itself calls an override or keyword class no rule shares its name with |
| `Expansion.DanglingNeverExpands` | xtask/src/ruletable.rs:450-466 | a rule that calls such a template compiles at no depth |
| `Expansion.UndefinedExactlyWhenDangling` | xtask/src/ruletable.rs:450-453 | when nothing else is wrong, some surviving rule meets a call of a name that has no rule if and only if there is such a template |
| `Expansion.EndCallUndefined` | xtask/src/ruletable.rs:302-319 | `Program <- A('<')`, `TopLevelStatement <- '<'`, `A(D) <- EndOfInput(D)` passes the walk, and `Program` meets a call of a name that has no rule at every depth but zero |
| `Compiler.Compiler.Push` | xtask/src/ruletable.rs:370-373 | a node is appended and nothing before it changes |
| `Compiler.Compiler.Compile` | xtask/src/ruletable.rs:377-420 | the node built stands for the body with parameters substituted, or the failure is the one substitution gives; earlier nodes are untouched |
| `Compiler.Compiler.CompileList` | xtask/src/ruletable.rs:422-434 | a list's children are contiguous and stand for its items in order, even though nested lists grow the same vector |
| `Compiler.Compiler.CompileCall` | xtask/src/ruletable.rs:443-467 | a call compiles to its template with the argument in place of the parameter |
| `Compiler.Compiler.CompileLiteral` | xtask/src/ruletable.rs:469-491 | a word becomes its keyword number, anything else a symbol interned once |
| `SpelledTokens.WordLiteral` | xtask/src/ruletable.rs:469-491 | a literal of letters and underscores takes a word of a query if and only if the two differ in nothing but case |
| `SpelledTokens.WordByCode` | xtask/src/ruletable.rs:473-473 | which literals are words, by code point |
| `Compiler.RepresentsLater` | xtask/src/ruletable.rs:370-373 | what a node stands for does not change as the table grows |
| `Preservation.RunPreserves` | xtask/src/ruletable.rs:377-492 | matching a compiled node gives what the grammar's own semantics gives the body it stands for, at every nesting depth |
| `Preservation.RulePreserves` | xtask/src/ruletable.rs:213-224 | matching a rule in the table is matching it by name in the grammar: same end, same derivation, same failures, same inputs on which neither ends |
| `Preservation.LeafAgrees` | crates/rudb-parse/src/matcher.rs:660-800 | a terminal of the table, by masks and codes, takes and ends as the terminal of the grammar, by names of classes and positions, does |
| `Generate.CompileRules` | xtask/src/ruletable.rs:213-224 | every surviving rule has a root that stands for it, in order of the numbers |
| `Generate.CheckRepeats` | xtask/src/ruletable.rs:651-670 | passes exactly when no repeat has a body that can match nothing |
| `Generate.GenerateTable` | xtask/src/ruletable.rs:154-247 | a table comes out well formed, with the least nullable and FIRST solution, and standing for every surviving rule, with exactly the listed rules memoized; each refusal is for the reason it gives, of the names the files determine, and never for a name that did not survive |
| `First.ClassMasks` | xtask/src/ruletable.rs:500-510 | each class's mask is the union of the buckets of its words |
| `First.ClassFirst` | xtask/src/ruletable.rs:622-630 | the union over the classes in a mask |
| `First.EvaluateSequence` | xtask/src/ruletable.rs:577-589 | the loop with its early stop computes the sequence equation |
| `First.EvaluateChoice` | xtask/src/ruletable.rs:590-599 | the loop computes the choice equation |
| `First.Evaluate` | xtask/src/ruletable.rs:540-631 | one node's right-hand side from the current answer |
| `First.Pass` | xtask/src/ruletable.rs:537-640 | one in-place sweep keeps the answer growing and below every solution, and says whether anything changed |
| `First.Solve` | xtask/src/ruletable.rs:526-642 | the loop ends with the least solution of the equations after at most sixty-five changing passes for each node |
| `LeadingTokens.LeastIsDerived` | xtask/src/ruletable.rs:526-642 | the solution found is exact: a node is nullable exactly when steps down find that it can match nothing, and has a FIRST bit exactly when steps down lead to a terminal that a token with that bit can begin |
| `LeadingTokens.TerminalFirstTight` | xtask/src/ruletable.rs:540-630 | up to 255 symbols, FIRST of every terminal that is no identifier has a bit exactly when some token the terminal takes has it, every symbol included |
| `LeadingTokens.NameFirst` | xtask/src/ruletable.rs:600-617 | FIRST of an identifier is the identifier bit and every keyword bucket, more than it takes, and the string bit exactly where it takes a string |
| `LeadingTokens.SymbolBits` | xtask/src/ruletable.rs:556-572 | a semicolon has its own bit, a dot those of numbers and operators, any other symbol that of operators |
| `LeadingTokens.KeyBits` | crates/rudb-parse/src/rules.rs:198-223 | the bit of every kind of token and the bucket of every keyword, in numbers |
| `First.AssignKeepsGrowing` | xtask/src/ruletable.rs:632-640 | assigning a node its right-hand side, which overwrites rather than joins, only ever grows the answer |
| `First.AssignStaysBelow` | xtask/src/ruletable.rs:632-640 | and never passes any solution |
| `RuleTable.TerminalFirstSound` | xtask/src/ruletable.rs:541-631 | the key of every token a terminal accepts is in its FIRST set |
| `RuleTable.SymbolKeyingIsExact` | xtask/src/ruletable.rs:556-572 | a token's FIRST bit is right for every symbol that accepts it exactly when the tokenizer keyed it as assumed |
| `RuleTable.SymbolOkBySpelling` | crates/rudb-parse/src/matcher.rs:674-681 | up to 255 symbols that is about spelling: a token spelled like a symbol has a key in the symbol's FIRST |
| `Filter.FirstSound` | xtask/src/ruletable.rs:526-642 | a match that moves starts on a key in FIRST, and one that does not needs a nullable node |
| `Filter.BlockedCannotMatch` | xtask/src/codegen.rs:337-342 | a clear bit on a node that is not nullable means the node cannot match |
| `Filter.FilterRefines` | crates/rudb-parse/src/matcher.rs:425-434 | whatever plain matching returns, filtered matching returns: same end, same trees, same failures |
| `Progress.RepeatConsumes` | xtask/src/ruletable.rs:651-670 | in a checked table every round of every repeat consumes a token |
| `Progress.RepeatBounded` | xtask/src/ruletable.rs:600-601 | a repeat goes round at most as often as tokens remain, and answers when its body does |
| `Progress.RankedAnswers` | crates/rudb-parse/src/matcher.rs:46-52 | without left recursion every match answers within a depth known beforehand |
| `Progress.FilterIsInvisible` | crates/rudb-parse/src/matcher.rs:171-182 | without left recursion, and for positions the depth allowed covers, matching ends and the filter changes nothing |
| `Progress.FilterAnswersMore` | crates/rudb-parse/src/matcher.rs:171-182 | `A <- A`, `Program <- A / StringLiteral`, `TopLevelStatement <- StringLiteral`: on a string, plain matching of `Program` never answers and filtered matching does |
| `Tokenizer.Tokenize` | crates/rudb-parse/src/tokenize.rs:36-38 | the tokens of a query, or the one of four troubles it stops at, exactly as the text falls into steps |
| `Tokenizer.Tokenizer.Scan` | crates/rudb-parse/src/tokenize.rs:115-144 | the loop over nine states ends, although it steps back, and makes the tokens the text falls into |
| `Tokenizer.Tokenizer.Close` | crates/rudb-parse/src/tokenize.rs:147-189 | the end of the text settles each state: three are troubles, a lone dollar becomes a name, one end of input follows |
| `Tokenizer.Tokenizer.ScanStandard` | crates/rudb-parse/src/tokenize.rs:192-233 | each start of a token is dispatched to the state that finishes it, or finished on the spot |
| `Tokenizer.Tokenizer.ScanPlain` | crates/rudb-parse/src/tokenize.rs:235-275 | operators looked for before a run, single operators, numbers, prefixed strings, runs and words, in that order |
| `Tokenizer.Tokenizer.ScanDollar` | crates/rudb-parse/src/tokenize.rs:279-313 | a dollar is a parameter mark, the start of a tagged string, or the end of the text |
| `Tokenizer.Tokenizer.ScanDigits` | crates/rudb-parse/src/tokenize.rs:315-344 | a number takes in exactly what may continue it and gives back a trailing exponent |
| `Tokenizer.Tokenizer.ScanOperator` | crates/rudb-parse/src/tokenize.rs:346-360 | a run ends before a comment or a character that cannot continue it |
| `Tokenizer.Tokenizer.ScanWord` | crates/rudb-parse/src/tokenize.rs:362-372 | a word ends at the first character that is neither a word character nor a dollar |
| `Tokenizer.Tokenizer.ScanString` | crates/rudb-parse/src/tokenize.rs:374-390 | a string ends at the first quote that is neither doubled nor, where escapes count, escaped |
| `Tokenizer.Tokenizer.ScanName` | crates/rudb-parse/src/tokenize.rs:392-407 | a quoted name ends at the first quote that is not doubled, and an empty one is a trouble |
| `Tokenizer.Tokenizer.ScanBlockComment` | crates/rudb-parse/src/tokenize.rs:409-424 | a block comment ends where its nesting does, and where it started is remembered |
| `Tokenizer.Tokenizer.ScanDollars` | crates/rudb-parse/src/tokenize.rs:426-446 | a tagged string ends at the first closing tag that is its own |
| `Tokenizer.Tokenizer.PushOperator` | crates/rudb-parse/src/tokenize.rs:472-486 | the trailing plus signs of an unmarked run are tokens of their own, each with its gap |
| `Tokenizer.Search` | crates/rudb-parse/src/tokenize.rs:562-577 | the binary search finds a word's number in the sorted table, however it is cased, or that it has none |
| `Spelling.StepIsSpelled` | crates/rudb-parse/src/tokenize.rs:176-446 | at every position of every query the tokenizer's step is one and only one: the one that the characters there spell, in terms of quotes that pair, comments that balance, longest words, numbers and operators |
| `Spelling.CharactersAgree` | crates/rudb-parse/src/tokenize.rs:662-730 | the character classes, by code point |
| `Spelling.LowerByCode` | crates/rudb-parse/src/tokenize.rs:562-577 | folding adds 32 to the code points 65 to 90 and leaves the rest |
| `Spelling.StringCloses` | crates/rudb-parse/src/tokenize.rs:374-390 | a string ends at a position if and only if the text before it is characters other than quotes and pairs of quotes, then a quote, and no quote follows |
| `Spelling.EscapedCloses` | crates/rudb-parse/src/tokenize.rs:374-390 | with escapes, if and only if moreover each backslash takes the next character with it |
| `Spelling.NameCloses` | crates/rudb-parse/src/tokenize.rs:392-407 | a quoted name ends by the same law for double quotes |
| `Spelling.DollarCloses` | crates/rudb-parse/src/tokenize.rs:426-446 | a dollar-quoted string ends with the first occurrence of its tag, and is unterminated if there is none |
| `Spelling.BlockIs` | crates/rudb-parse/src/tokenize.rs:409-424 | a block comment ends where openings and closings first balance |
| `SpelledTokens.TokensBySpelling` | crates/rudb-parse/src/tokenize.rs:36-38 | every token of every query is spelled as its kind says: closed strings and names, longest numbers and words, keywords by the table |
| `SpelledTokens.PlainStrings` | crates/rudb-parse/src/tokenize.rs:374-390 | in a string token that starts with a quote the inside is non-quotes and pairs of quotes, and no quote follows it |
| `SpelledTokens.QuotedText` | crates/rudb-parse/src/tokenize.rs:374-390 | any text whatsoever, its quotes doubled and in quotes, is one string token and the end of input |
| `SpelledTokens.QuotedName` | crates/rudb-parse/src/tokenize.rs:392-407 | any text but the empty one, its double quotes doubled and in double quotes, is one quoted identifier; the empty one is refused |
| `SpelledTokens.EscapedText` | crates/rudb-parse/src/tokenize.rs:374-390 | any text after an `E`, its quotes and backslashes escaped, is one string token |
| `SpelledTokens.TaggedText` | crates/rudb-parse/src/tokenize.rs:426-446 | any text without a dollar between two equal tags is one string token |
| `SpelledTokens.BareWord` | crates/rudb-parse/src/tokenize.rs:456-470 | any word is one token, with the number the table gives its lower case |
| `SpelledTokens.Numerals` | crates/rudb-parse/src/tokenize.rs:315-344 | digits, with a point, an underscore or an exponent, are one number token |
| `SpelledTokens.CommentQuery` | crates/rudb-parse/src/tokenize.rs:409-424 | a query that is one block comment, nested as it may be, has no token but the end of input |
| `TokenLaws.LexTiles` | crates/rudb-parse/src/tokenize.rs:31-38 | the tokens tile the query: each spells what it spans, they are in order and not empty, only space and comments lie between them, and one end of input closes them |
| `TokenLaws.LexSound` | crates/rudb-parse/src/tokenize.rs:448-464 | every token's kind goes with its spelling, a word's number is its place in the table, and it is a keyword exactly when it has a class |
| `TokenLaws.TokensKeyed` | crates/rudb-parse/src/rules.rs:205-223 | up to 255 symbols that start with punctuation, the tokens of a query carry the keys the filter relies on if and only if it is not the case that the grammar has a dollar symbol and the tokens a lone dollar |
| `TokenLaws.LoneDollarQuery` | crates/rudb-parse/src/tokenize.rs:176-179 | the query `$` is such a query: its one token is an identifier, and with a dollar symbol in the grammar it is not keyed as the filter needs |
| `TokenLaws.LoneEnds` | crates/rudb-parse/src/tokenize.rs:176-179 | a lone dollar is the last character of the query |
| `Gaps.QueryFlags` | crates/rudb-parse/src/tokenize.rs:535-552 | for every token of every query: the first and the end of input have no flags; any other has the line break flag exactly when the gap before it holds a line break, and the block comment flag exactly when the gap holds a block comment that does not start where a dollar token ended |
| `Gaps.DollarHidesComment` | crates/rudb-parse/src/tokenize.rs:409-424 | in `$/**/+` the comment between dollar and plus goes unnoticed |
| `Gaps.BlockGrows` | crates/rudb-parse/src/tokenize.rs:495-503 | a step over space or a comment adds its own start to the comments noticed exactly when it is a block comment and not right behind a dollar |
| `RuleTable.SymbolCodesAreExact` | crates/rudb-parse/src/matcher.rs:261-271 | comparing one-byte symbol codes is comparing text if and only if there are at most 255 symbols |
| `MatcherInvariant.BuildSlots` | crates/rudb-parse/src/matcher.rs:284-294 | memoized rules and slots correspond one to one |
| `MatcherInvariant.MemoIndexInjective` | crates/rudb-parse/src/matcher.rs:527-529 | no two rules and positions share a memo entry |
| `Matcher.Matcher.constructor` | crates/rudb-parse/src/matcher.rs:297-318 | the first state satisfies the invariant of the loop |
| `Matcher.Matcher.TryTerminal` | crates/rudb-parse/src/matcher.rs:660-728 | a terminal ends where the semantics says, the run of adjacent strings included |
| `TerminalRules.KeywordNames` | crates/rudb-parse/src/matcher.rs:736-764 | which keywords an identifier takes, by class and position: unreserved ones always, reserved ones only with the flag, function names at functions, type names at functions and types, column names everywhere but there |
| `TerminalRules.OtherNames` | crates/rudb-parse/src/matcher.rs:736-764 | of other tokens it takes quoted names and unclassed words always, strings in quotes at tables and files only, and nothing else |
| `TerminalRules.LoneDot` | crates/rudb-parse/src/matcher.rs:660-700 | no number node takes a dot |
| `Matcher.Matcher.Viable` | crates/rudb-parse/src/matcher.rs:480-489 | skips exactly the alternatives the filter rules out |
| `Matcher.Matcher.Push` | crates/rudb-parse/src/matcher.rs:385-391 | suspends a node, keeping the invariant, or reports that more nesting than the cap is needed |
| `Matcher.Matcher.EnterNode` | crates/rudb-parse/src/matcher.rs:425-471 | one entry step keeps the invariant and lowers the cost left |
| `Matcher.Matcher.PassOptional` | crates/rudb-parse/src/matcher.rs:453-464 | an optional whose child cannot start matches nothing without entering it |
| `Matcher.Matcher.EnterRule` | crates/rudb-parse/src/matcher.rs:505-525 | a rule is entered, or answered from the memo with the outcome matching it again would give |
| `Matcher.Matcher.SettleOk` | crates/rudb-parse/src/matcher.rs:532-602 | a success settles the frame on top: next child, next round, or the node's own success |
| `Matcher.Matcher.FinishRule` | crates/rudb-parse/src/matcher.rs:549-560 | a finished rule becomes an arena node whose children are the list gathered, and its memo entry says so |
| `Matcher.Matcher.SettleFail` | crates/rudb-parse/src/matcher.rs:605-648 | a failure restores position and list and tries the next alternative, ends the repeat, or fails on |
| `Matcher.Matcher.NextAlternative` | crates/rudb-parse/src/matcher.rs:623-638 | the next alternative starts from the choice's own position with its list emptied |
| `Matcher.Matcher.Run` | crates/rudb-parse/src/matcher.rs:320-343 | the loop always ends, with the outcome and trees of the semantics or with proof that the cap is too low |
| `MatcherInvariant.FullMeansDeep` | crates/rudb-parse/src/matcher.rs:385-401 | the too-deep error is given only when matching really needs more nesting than the cap |
| `Arena.DenotesUnique` | crates/rudb-parse/src/matcher.rs:115-142 | an arena node reads as one tree |
| `Arena.ShadowDenotes` | crates/rudb-parse/src/matcher.rs:115-162 | following child and sibling links reads back the tree that was matched |
| `Arena.SpliceArena` | crates/rudb-parse/src/matcher.rs:540-547 | joining two lists by one link joins the forests they read as and disturbs no other list |
| `Arena.CloseList` | crates/rudb-parse/src/matcher.rs:549-560 | a finished list under a new node reads as the node's children |
| `Arena.CopyNode` | crates/rudb-parse/src/matcher.rs:511-520 | a copy of a remembered node reads as the same tree and may be linked elsewhere |
| `Frames.SequenceMoves` | crates/rudb-parse/src/matcher.rs:561-577 | after a child of a sequence, what is left is the rest of the sequence from where it ended |
| `Frames.RepeatMoves` | crates/rudb-parse/src/matcher.rs:579-600 | after a round of a repeat, what is left is the further rounds |
| `Frames.ChoiceSkips` | crates/rudb-parse/src/matcher.rs:480-489 | skipping alternatives that cannot match leaves the choice's outcome unchanged |
| `Parse.ParseTokens` | crates/rudb-parse/src/matcher.rs:185-187 | for any table, however many symbols: a parse reports a tree that covers every token, a syntax error, or too much nesting, each only when matching by symbol codes says so |
| `Parse.ReportIsPlain` | crates/rudb-parse/src/matcher.rs:320-357 | whenever plain matching comes to an outcome, however deep, a report that does not give up tells exactly it: its nodes denote the tree that parses everything and no other, and it is an error if and only if there is none; within the cap it does not give up |
| `Parse.FilterOnAndOffAgree` | crates/rudb-parse/src/matcher.rs:1040-1050 | parses with and without the filter agree, on the tree or on the error, wherever plain matching answers within the cap and past it as long as neither gives up |
| `Parse.RankedTablesAlwaysReport` | crates/rudb-parse/src/matcher.rs:46-52 | without left recursion, and for queries short enough for the cap, a parse never gives up |
| `Parse.RankedReportIsPlain` | crates/rudb-parse/src/matcher.rs:171-187 | without left recursion plain matching always comes to an outcome, and a report that does not give up tells it, with the filter on or off |
| `Parse.UnfilteredAnswers` | crates/rudb-parse/src/matcher.rs:320-357 | without the filter a report that does not give up is of an outcome plain matching comes to |
| `EndToEnd.ParseIsGrammar` | crates/rudb-parse/src/matcher.rs:166-187 | up to 255 symbols: whenever the grammar's own semantics comes to a finding, however deep, a report that does not give up shows exactly its derivation, or is an error if and only if it has none; within the cap it does not give up, and keyed tokens are asked for only by the filter |
| `EndToEnd.AnswerIsFinding` | crates/rudb-parse/src/matcher.rs:171-187 | without the filter, or without left recursion, the grammar's semantics comes to a finding whenever a parse does not give up, and the report gives it |
| `EndToEnd.ParseQuery` | crates/rudb-parse/src/matcher.rs:176-182 | a query either stops the tokenizer or is reported on as its tokens are |
| `EndToEnd.QueryIsGrammar` | crates/rudb-parse/src/matcher.rs:166-169 | from query text to tree: the same for the tokens of a query, the filter asking for symbols that start with punctuation and no lone dollar while the grammar has a dollar symbol |
| `EndToEnd.QueryKeyed` | crates/rudb-parse/src/rules.rs:205-223 | a query's tokens carry the keys the filter relies on if and only if none is a lone dollar that is also a symbol |
| `EndToEnd.AnswerAgrees` | crates/rudb-parse/src/matcher.rs:166-182 | with a table that serves a grammar the answer to a query, a tokenizer's trouble included, is the one the grammar gives, past the cap as well unless the parse gives up; and without the filter or without left recursion there is one whenever it does not |
| `EndToEnd.ParseWithFiles` | crates/rudb-parse/src/matcher.rs:166-169 | from grammar files, keyword lists and query text to the tree: whatever table of up to 255 symbols the generator makes of the files, a query parsed with it from either root, with the filter only if it holds no lone dollar that is also a symbol, gets the derivation that the grammar in the files gives, and an error if and only if it gives none, or too much nesting past the cap |
| `Snappy.Compress` | xtask/src/compress.rs:313-355 | what is written is the length and a list of elements that make the input; decoding gives the input back as long as no literal among them outgrows its header, which none does up to 2^24 bytes; and the block is at most a sixty-first larger plus five |
| `Snappy.MatchLength` | xtask/src/compress.rs:344-347 | the match found is a match over its whole length, four to sixty-four bytes, inside the input |
| `Snappy.MatchCopies` | xtask/src/compress.rs:343-350 | a match is what a copy of that length makes, even when it overlaps the bytes it is making |
| `Snappy.AnnouncedIsSize` | xtask/src/compress.rs:357-375 | the size a literal's header announces is its size if and only if it is at most 2^24 |
| `Snappy.LiteralReads` | xtask/src/compress.rs:357-375 | a literal element reads back, whatever follows, if and only if its size fits the header |
| `Snappy.CopyReads` | xtask/src/compress.rs:377-385 | a copy element reads back in both its forms, whatever follows |
| `Snappy.PairCovers` | xtask/src/compress.rs:348-352 | a literal and the copy after it extend what the elements make to the end of the match and stay inside the size bound |
| `Snappy.EncodingMakes` | xtask/src/compress.rs:313-385 | decoding the bytes of any list of elements whose literals fit performs exactly those elements, whatever follows |
| `Snappy.VarintReads` | xtask/src/compress.rs:315-320 | the length prefix reads back, whatever follows |
| `TopCount.Exact` | xtask/src/topcount.rs:230-242 | the top rows of the exact counts |
| `TopCount.Best` | xtask/src/topcount.rs:309-313 | the rows are in order, are the table's, and everything left out comes after them |
| `TopCount.TopUnique` | xtask/src/topcount.rs:309-313 | there is one such answer, whatever order the table gives its rows up in |
| `TopCount.TopMeans` | xtask/src/topcount.rs:309-313 | counts do not rise down the answer, ties are in byte order, a key left out ranks behind every row, and the answer has the rows asked for or every key |
| `TopCount.FirstPass` | xtask/src/topcount.rs:246-253 | each counter holds its bucket's load up to where it saturates |
| `TopCount.MaskIsRemainder` | xtask/src/topcount.rs:251-251 | masking with one less than a power of two is the remainder |
| `TopCount.NthLargest` | xtask/src/topcount.rs:291-306 | repeated sorting, cutting and a rising floor find the largest value, from one up, that the budget of counters reaches |
| `TopCount.ThresholdUnique` | xtask/src/topcount.rs:287-291 | that value is unique, so it is the one a full sort finds |
| `TopCount.ThresholdIsSorted` | xtask/src/topcount.rs:304-305 | and it is what a full descending sort has in the budget's place, or one when there is none or it is zero |
| `TopCount.KeepsCut` | xtask/src/topcount.rs:297-301 | cutting the list and raising the floor loses no counter that matters |
| `TopCount.Buckets` | xtask/src/topcount.rs:245-285 | for any number of rows asked for, none included, a certified answer equals the exact one if and only if there are candidates for every row or no key was skipped, even with saturated counters |
| `TopCount.Certificate` | xtask/src/topcount.rs:269-276 | the certificate's argument: a skipped key is rarer than every row of the answer |
| `TopCount.CertifiedButShort` | xtask/src/topcount.rs:274-276 | an answer can be certified and still miss a row, when it is not full |
| `EncodePass.CutTiles` | xtask/src/encode.rs:686-689 | the chunks of a column, end to end, are the column; none is empty, and all but the last are full |
| `EncodePass.BuildWork` | xtask/src/encode.rs:384-390 | every chunk of every column is listed once, heaviest first |
| `EncodePass.StepConserves` | xtask/src/encode.rs:468-475 | every step of any worker keeps each number handed out in one place: encoded once, or with one worker |
| `EncodePass.NeverTwice` | xtask/src/encode.rs:462-486 | under no interleaving is a unit encoded twice |
| `EncodePass.OnceEach` | xtask/src/encode.rs:462-486 | when every worker returns without error, every unit was encoded exactly once |
| `EncodePass.RunSpends` | xtask/src/encode.rs:468-475 | no run makes more than two steps for each unit and one for each worker |
| `EncodePass.StuckIsBack` | xtask/src/encode.rs:468-483 | a run that cannot go on has every worker back |
| `EncodePass.EachValueOnce` | xtask/src/encode.rs:384-390 | and each value of each column is in exactly one of the units encoded |
| `Gate.TurnRound` | xtask/src/focus.rs:222-228 | who depends on a crate is exactly who lists it |
| `Gate.Closure` | xtask/src/focus.rs:218-239 | the worklist ends on any graph, cycles or not, with exactly the crates from which a seed is reached |
| `Gate.Check` | xtask/src/layers.rs:32-59 | no problem is found exactly when every crate and all it depends on have ranks, strictly lower for the dependency, and only crates are ranked |
| `Gate.NoCycle` | xtask/src/layers.rs:3-4 | the rule leaves no cycle of dependencies, xtask, which has no rank, included |
| `Gate.Packages` | xtask/src/focus.rs:60-70 | the affected crates, each once, by rank and then name, unranked last |
| `Gate.DependenciesFirst` | xtask/src/focus.rs:58-59 | each affected crate is named after every affected crate it depends on, xtask, which has no rank, included |
| `Gate.Plan` | xtask/src/focus.rs:58-70 | when the layer check finds no problem the dependencies have no cycle, and what a change can affect is named exactly once each, after everything it depends on |
| `Builder.Builder.Extend` | fuzz/fuzz_targets/bind.rs:712-717 | a run is appended to its backing vector, the slice returned names exactly it, and nothing built before changes |
| `Builder.Builder.Intern` | fuzz/fuzz_targets/bind.rs:693-699 | the slot returned holds the text, and no text is ever held twice |
| `Builder.AddKeeps` | fuzz/fuzz_targets/bind.rs:707-717 | adding fields that refer to what exists keeps every reference inside its arena, of its declared kind and older than its holder |
| `Builder.Builder.Expr` | fuzz/fuzz_targets/bind.rs:403-408 | an expression whose references exist, at any depth and budget; with the budget gone it is one expression, and one on which it goes overruns by at most nine a level |
| `Builder.Builder.Branch` | fuzz/fuzz_targets/bind.rs:442-494 | every kind of expression is built from references that exist |
| `Builder.Builder.RowRun` | fuzz/fuzz_targets/bind.rs:376-388 | the rows of a values list: one to three, all of one width from one to three |
| `Builder.Builder.Source` | fuzz/fuzz_targets/bind.rs:281-341 | every kind of from entry is built from references that exist |
| `Builder.Builder.SelectBlock` | fuzz/fuzz_targets/bind.rs:246-268 | a select block is built from references that exist |
| `Builder.Builder.Query` | fuzz/fuzz_targets/bind.rs:201-216 | a query is built from references that exist, and overruns the budget by at most six expressions once it is gone and eight and nine a level when it goes on the way |
| `Builder.Builder.Statement` | fuzz/fuzz_targets/bind.rs:160-198 | every kind of statement ends with an index into its own arena |
| `Builder.Generate` | fuzz/fuzz_targets/bind.rs:93-101 | for every stream of choices generation ends, with every index absent or inside the right arena, every slice inside its backing vector, every values list of one width, no string twice, every reference older than its holder, at most 335 expressions and at most 11391 nodes of all kinds |
| `Builder.ValuesAreEven` | fuzz/fuzz_targets/bind.rs:371-388 | in finished arenas the rows of every values list, query or source, have one width |
| `UnicodeRuns.Runs` | xtask/src/unicode.rs:104-118 | the rows start at zero and rise, neighbours differ, and the last row at or before any code point has the class the two-stage lookup gives; a gap in the stages stops at the first code point it concerns |
| `UnicodeRuns.LookupMeans` | xtask/src/unicode.rs:98-103 | the lookup gives every code point its class if and only if the block of every 256 holds their classes in order, and stops exactly past the last block |
| `UnicodeRuns.TableOfClasses` | xtask/src/unicode.rs:98-118 | so the rows have every code point in the row of its class |
| `UnicodeRuns.TightIsLeast` | xtask/src/unicode.rs:104-118 | no table of the same lookup has fewer rows |
| `UnicodeRuns.StartsForced` | xtask/src/unicode.rs:185-190 | wherever a table with differing neighbours starts a row, every table of the same lookup does |
| `Sha256.Pad` | xtask/src/sha256.rs:106-112 | the padding loop builds the padding of section 5.1.1 of FIPS 180-4, stopping at the first length that leaves room |
| `Sha256.Missing` | xtask/src/sha256.rs:109-111 | no shorter run of zeros ends where the length goes |
| `Sha256.PaddingInjective` | xtask/src/sha256.rs:106-112 | different messages under 2^61 bytes are padded differently |
| `Sha256.Expand` | xtask/src/sha256.rs:115-123 | the in-place schedule is the recursive one of section 6.2.2 |
| `Sha256.Compress` | xtask/src/sha256.rs:125-145 | the rotating variables compute the sixty-four rounds of section 6.2.2 and their sum with the state |
| `Sha256.ComputeDigest` | xtask/src/sha256.rs:91-153 | the digest is that of FIPS 180-4 for every message |
| `Sha256Constants.RoundConstants` | xtask/src/sha256.rs:13-78 | every round constant is the first thirty-two bits of the fraction of the cube root of its prime |
| `Sha256Constants.FirstHash` | xtask/src/sha256.rs:91-101 | the first hash value holds those of the square roots of the first eight primes |
| `Sha256Example.Example` | xtask/src/sha256.rs:164-164 | the published digest of `abc` |

## Left out

- Hints in comments, the flag on an unterminated dollar-quoted string, and the quoting and splitting of names in the tokenizer's file.
- Tokenizer.Tokenize: asks for the keyword table in strictly ascending order, which is how the generator writes it.
- EndToEnd.ParseQuery: asks for the keyword table in strictly ascending order, for the tokenizer's search.
- Error text, spans, and the step and furthest-token counters of the matcher: a failed parse is modelled as an error without its message.
- Machine widths of arena, memo and table indices: indices are unbounded numbers, and the sentinel values next to them are options.
- The memo's cached key and symbol arrays beyond their contents, and the lazily built slot table shared between parses.
- Rule origins, file reading, directory order and command lines: files arrive as texts, manifests and rank tables as maps.
- Text with bytes outside ASCII: the grammar parser and the keyword scan are modelled over characters, and the carriage return that line splitting drops before a newline is kept.
- GrammarParser.Parser.ParseFile: faults are named but carry no line number.
- Generator.GenerateGrammar: stops when the table has more words than a keyword number can name, which the generator does not look at.
- The text of the generated files, the suggestion codes beyond their order, and the `alternatives` listing.
- Snappy.Compress: decoding is stated for blocks whose literals fit their header; with a longer literal the elements still make the input, and only the element is shown not to read back, since the bytes after a cut length may decode to anything.
- The Parquet scan and the hash function behind the top count: rows arrive as keys and the hash is any function.
- EncodePass.BuildWork: weights are any function of a unit, and the timing and reporting around a pass are not modelled.
- The atomic counter of the encode pass is unbounded; wrapping after 2^64 fetches is not modelled.
- Gate.Check: the language policy scan that shares the problem list, and the parsing of manifests and rank tables.
- The mapping of changed paths to crates and flags in the focused gate, which is prefix tests on strings.
- Builder.Builder.Branch: operators, literal kinds, join kinds and flags are chosen but not recorded, since they refer to nothing; the fuzzer's bytes arrive as numbers reduced to the range asked for.
- The decomposition and composition tables of Unicode normalization.
- The hexadecimal rendering of digests.
- Benchmarks, conformance runs, source-text lints and the database crates, which would add members and no harder law.
