/** Rules as they may be written out: every choice of space, comments, parentheses and escapes.  */
module Rendering {
  import RuleTable
  import opened Syntax
  import opened Reading

  // ---------------------------------------------------------------------------------------------
  // The rules a file can hold

  predicate IsName(n: string) {
    n != [] && NameLength(n) == |n|
  }

  predicate IsClass(t: string) {
    Starts(t, '[') && ClassText(t) == Done(t, [])
  }

  /** A body the parser can build: names that are names, classes that are classes, and lists that are
      worth having.  */
  predicate Canonical(e: Expr) {
    match e
    case Literal(_) => true
    case Reference(name) => IsName(name)
    case Call(name, argument) => IsName(name) && Canonical(argument)
    case Sequence(items) => |items| >= 2 && forall i :: 0 <= i < |items| ==> Canonical(items[i])
    case Choice(items) => |items| >= 2 && forall i :: 0 <= i < |items| ==> Canonical(items[i])
    case Optional(inner) => Canonical(inner)
    case Repeat(inner) => Canonical(inner)
    case Not(inner) => Canonical(inner)
    case Capture(inner) => Canonical(inner)
    case CharClass(text) => IsClass(text)
  }

  predicate CanonicalRule(r: Rule) {
    IsName(r.name) && (r.parameter.Some? ==> IsName(r.parameter.value)) && Canonical(r.body)
  }

  // ---------------------------------------------------------------------------------------------
  // Names and classes, by their characters

  predicate Alphanumeric(c: char) {
    var n := c as int;
    48 <= n <= 57 || 65 <= n <= 90 || n == 95 || 97 <= n <= 122
  }

  /** What separates elements: tab, newline, form feed, carriage return and space.  */
  predicate Separates(c: char) {
    c as int in {9, 10, 12, 13, 32}
  }

  lemma CharactersAgree(c: char)
    ensures NameChar(c) <==> Alphanumeric(c)
    ensures White(c) <==> Separates(c)
  {}

  lemma {:induction false} NameRunIs(s: string)
    ensures NameRun(s) == |s| <==> forall i :: 0 <= i < |s| ==> Alphanumeric(s[i])
  {
    if s != [] {
      NameRunIs(s[1..]);
      assert forall i :: 0 < i < |s| ==> s[i] == s[1..][i - 1];
    }
  }

  /** A name is letters, digits and underscores, at least one, perhaps after a percent sign.  */
  lemma NameByCharacters(n: string)
    ensures IsName(n) <==>
            var letters := if n != [] && n[0] == '%' then n[1..] else n;
            letters != [] && forall i :: 0 <= i < |letters| ==> Alphanumeric(letters[i])
  {
    NameRunIs(if n != [] && n[0] == '%' then n[1..] else n);
  }

  /** What is between the brackets of a class: anything, but a closing bracket or a backslash only after a
      backslash.  */
  ghost predicate Inside(s: string) {
    || s == []
    || (s[0] != ']' && s[0] != '\\' && Inside(s[1..]))
    || (|s| >= 2 && s[0] == '\\' && Inside(s[2..]))
  }

  lemma {:induction false} InsideReads(body: string, rest: string)
    requires Inside(body)
    ensures ClassBody(body + ("]" + rest)) == Done(body + "]", rest)
    decreases |body|
  {
    hide ClassBody;
    var s := body + ("]" + rest);
    ClassUnfolds(s);
    if body == [] {
      assert s == "]" + rest && s[1..] == rest && body + "]" == "]";
    } else {
      var step := if body[0] == '\\' then 2 else 1;
      assert s[step..] == body[step..] + ("]" + rest) && s[..step] == body[..step];
      InsideReads(body[step..], rest);
      assert body[..step] + (body[step..] + "]") == body + "]";
    }
  }

  lemma {:induction false} ReadsInside(s: string)
    requires ClassBody(s).Done?
    ensures var t := ClassBody(s).value; t != [] && t[|t| - 1] == ']' && Inside(t[..|t| - 1])
    decreases |s|
  {
    hide ClassBody;
    ClassUnfolds(s);
    if s[0] != ']' {
      var step := if s[0] == '\\' then 2 else 1;
      ReadsInside(s[step..]);
      var t, more := ClassBody(s).value, ClassBody(s[step..]).value;
      assert t == s[..step] + more;
      assert t[..|t| - 1][step..] == more[..|more| - 1];
    }
  }

  /** A class is brackets around its inside, perhaps with a flag.  */
  lemma ClassByCharacters(body: string)
    requires Inside(body)
    ensures IsClass("[" + body + "]") && IsClass("[" + body + "]i")
  {
    hide ClassBody;
    InsideReads(body, "");
    InsideReads(body, "i");
    var t := "[" + body + "]";
    assert t[1..] == body + ("]" + "") && "[" + (body + "]") == t;
    var u := "[" + body + "]i";
    assert u[1..] == body + ("]" + "i") && "[" + (body + "]") + "i" == u && "i"[1..] == "";
  }

  lemma ClassOnlySo(t: string) returns (body: string)
    requires IsClass(t)
    ensures Inside(body) && (t == "[" + body + "]" || t == "[" + body + "]i")
  {
    hide ClassBody, Inside;
    ReadsInside(t[1..]);
    var taken := ClassBody(t[1..]).value;
    body := taken[..|taken| - 1];
    assert taken == body + "]";
  }

  // ---------------------------------------------------------------------------------------------
  // Gaps

  datatype Piece = Blank(c: char) | Comment(text: string)

  /** What may lie between two elements.  */
  type Gap = seq<Piece>

  predicate GapOk(g: Gap) {
    forall i :: 0 <= i < |g| ==>
      match g[i]
      case Blank(c) => Separates(c)
      case Comment(text) => '\n' !in text
  }

  /** A gap and what comes after it.  */
  function G(g: Gap, tail: string): string {
    if g == [] then tail
    else
      match g[0]
      case Blank(c) => [c] + G(g[1..], tail)
      case Comment(text) => "#" + (text + ("\n" + G(g[1..], tail)))
  }

  lemma {:induction false} LineSkips(text: string, rest: string)
    requires '\n' !in text
    ensures Line(text + ("\n" + rest)) == "\n" + rest
  {
    var s := text + ("\n" + rest);
    if text == [] {
      assert s == "\n" + rest;
    } else {
      assert s[1..] == text[1..] + ("\n" + rest);
      LineSkips(text[1..], rest);
    }
  }

  /** Reading skips a gap.  */
  lemma {:induction false} GapSkipped(g: Gap, tail: string)
    requires GapOk(g)
    ensures Space(G(g, tail)) == Space(tail)
  {
    if g != [] {
      GapSkipped(g[1..], tail);
      var s, more := G(g, tail), G(g[1..], tail);
      match g[0]
      case Blank(c) =>
        CharactersAgree(c);
        assert s[1..] == more;
      case Comment(text) =>
        LineSkips(text, more);
        assert s[1..] == text + ("\n" + more);
        assert ("\n" + more)[1..] == more;
    }
  }

  /** How a gap begins, if there is one.  */
  lemma GapFront(g: Gap, tail: string)
    requires GapOk(g) && g != []
    ensures G(g, tail) != [] && (White(G(g, tail)[0]) || G(g, tail)[0] == '#')
  {
    if g[0].Blank? {
      CharactersAgree(g[0].c);
    }
  }

  // ---------------------------------------------------------------------------------------------
  // Layouts

  /** An expression as it may be written: which characters of a literal are escaped, what lies in every gap, and
      where there are parentheses.  */
  datatype Layout =
    | Lit(chars: seq<(bool, char)>)
    | Name(name: string)
    | Class(text: string)
    | Apply(name: string, left: Gap, inner: Layout, right: Gap)
    | Group(left: Gap, inner: Layout, right: Gap)
    | Captured(left: Gap, inner: Layout, right: Gap)
    | Marked(inner: Layout, mark: char)
    | Bang(gap: Gap, inner: Layout)
    | Row(items: seq<Layout>, gaps: seq<Gap>)
    | Alts(items: seq<Layout>, before: seq<Gap>, after: seq<Gap>)

  /** Which parser a layout is written for: 0 choices, 1 sequences, 2 prefixed, 3 suffixed, 4 primary.  */
  function Level(l: Layout): (level: nat)
    ensures level <= 4
  {
    match l
    case Alts(_, _, _) => 0
    case Row(_, _) => 1
    case Bang(_, _) => 2
    case Marked(_, _) => 3
    case _ => 4
  }

  /** A layout that can be read: elements of a sequence are apart, operators bind as tightly as they are
      written, and whatever has to be escaped is.  */
  predicate Valid(l: Layout) {
    match l
    case Lit(chars) => forall i :: 0 <= i < |chars| ==> chars[i].0 || (chars[i].1 != '\'' && chars[i].1 != '\\')
    case Name(name) => IsName(name)
    case Class(text) => IsClass(text)
    case Apply(name, left, inner, right) => IsName(name) && GapOk(left) && Valid(inner) && GapOk(right)
    case Group(left, inner, right) => GapOk(left) && Valid(inner) && GapOk(right)
    case Captured(left, inner, right) => GapOk(left) && Valid(inner) && GapOk(right)
    case Marked(inner, mark) => Valid(inner) && Level(inner) == 4 && (mark == '?' || mark == '+' || mark == '*')
    case Bang(gap, inner) => GapOk(gap) && Valid(inner) && Level(inner) >= 3
    case Row(items, gaps) =>
      && |items| >= 2 && |gaps| == |items| - 1
      && (forall i :: 0 <= i < |items| ==> Valid(items[i]) && Level(items[i]) >= 2)
      && (forall i :: 0 <= i < |gaps| ==> GapOk(gaps[i]) && gaps[i] != [])
    case Alts(items, before, after) =>
      && |items| >= 2 && |before| == |after| == |items| - 1
      && (forall i :: 0 <= i < |items| ==> Valid(items[i]) && Level(items[i]) >= 1)
      && (forall i :: 0 <= i < |before| ==> GapOk(before[i]) && GapOk(after[i]))
  }

  /** The expression that is laid out.  */
  function Erase(l: Layout): Expr {
    match l
    case Lit(chars) => Literal(Plain(chars))
    case Name(name) => Reference(name)
    case Class(text) => CharClass(text)
    case Apply(name, _, inner, _) => Call(name, Erase(inner))
    case Group(_, inner, _) => Erase(inner)
    case Captured(_, inner, _) => Capture(Erase(inner))
    case Marked(inner, mark) =>
      if mark == '?' then Optional(Erase(inner))
      else if mark == '+' then Repeat(Erase(inner))
      else Optional(Repeat(Erase(inner)))
    case Bang(_, inner) => Not(Erase(inner))
    case Row(items, _) => Sequence(EraseAll(items))
    case Alts(items, _, _) => Choice(EraseAll(items))
  }

  function EraseAll(items: seq<Layout>): (r: seq<Expr>)
    ensures |r| == |items|
    ensures forall i :: 0 <= i < |items| ==> r[i] == Erase(items[i])
  {
    if items == [] then [] else [Erase(items[0])] + EraseAll(items[1..])
  }

  function Plain(chars: seq<(bool, char)>): string {
    seq(|chars|, i requires 0 <= i < |chars| => chars[i].1)
  }

  /** The text of a layout and what comes after it.  */
  function W(l: Layout, tail: string): string
    decreases l, 1
  {
    match l
    case Lit(chars) => "'" + Chars(chars, "'" + tail)
    case Name(name) => name + tail
    case Class(text) => text + tail
    case Apply(name, left, inner, right) => name + ("(" + G(left, W(inner, G(right, ")" + tail))))
    case Group(left, inner, right) => "(" + G(left, W(inner, G(right, ")" + tail)))
    case Captured(left, inner, right) => "<" + G(left, W(inner, G(right, ">" + tail)))
    case Marked(inner, mark) => W(inner, [mark] + tail)
    case Bang(gap, inner) => "!" + G(gap, W(inner, tail))
    case Row(items, gaps) => RowTo(items, gaps, tail)
    case Alts(items, before, after) => if items == [] then tail else W(items[0], Rest(items[1..], before, after, tail))
  }

  function Chars(chars: seq<(bool, char)>, tail: string): string {
    if chars == [] then tail
    else (if chars[0].0 then ['\\', chars[0].1] else [chars[0].1]) + Chars(chars[1..], tail)
  }

  function RowTo(items: seq<Layout>, gaps: seq<Gap>, tail: string): string
    decreases items, 0
  {
    if items == [] then tail
    else if |items| == 1 || gaps == [] then W(items[0], tail)
    else W(items[0], G(gaps[0], RowTo(items[1..], gaps[1..], tail)))
  }

  /** The branches of a choice after the first.  */
  function Rest(items: seq<Layout>, before: seq<Gap>, after: seq<Gap>, tail: string): string
    decreases items, 0
  {
    if items == [] || before == [] || after == [] then tail
    else G(before[0], "/" + G(after[0], W(items[0], Rest(items[1..], before[1..], after[1..], tail))))
  }

  // ---------------------------------------------------------------------------------------------
  // Rules and files

  datatype Param = Param(left: Gap, name: string, right: Gap, after: Gap)

  datatype RuleLayout =
    RuleLayout(name: string, gap: Gap, parameter: RuleTable.Option<Param>, lead: Gap, body: Layout)

  predicate ParamOk(p: Param) {
    GapOk(p.left) && IsName(p.name) && GapOk(p.right) && GapOk(p.after)
  }

  predicate RuleOk(r: RuleLayout) {
    IsName(r.name) && GapOk(r.gap) && GapOk(r.lead) && Valid(r.body) && (r.parameter.Some? ==> ParamOk(r.parameter.value))
  }

  function EraseRule(r: RuleLayout): Rule {
    Rule.Rule(r.name,
              match r.parameter case None => RuleTable.None case Some(p) => RuleTable.Some(p.name),
              Erase(r.body))
  }

  function EraseRules(rules: seq<RuleLayout>): seq<Rule> {
    if rules == [] then [] else [EraseRule(rules[0])] + EraseRules(rules[1..])
  }

  function ArrowTo(r: RuleLayout, tail: string): string {
    "<-" + G(r.lead, W(r.body, tail))
  }

  function ParamTo(p: Param, arrow: string): string {
    "(" + G(p.left, p.name + G(p.right, ")" + G(p.after, arrow)))
  }

  function RuleTo(r: RuleLayout, tail: string): string {
    r.name + G(r.gap, if r.parameter.Some? then ParamTo(r.parameter.value, ArrowTo(r, tail)) else ArrowTo(r, tail))
  }

  /** The rules of a file, each followed by its gap.  */
  function FileTo(rules: seq<RuleLayout>, gaps: seq<Gap>): string {
    if rules == [] || gaps == [] then [] else RuleTo(rules[0], G(gaps[0], FileTo(rules[1..], gaps[1..])))
  }

  /** Rules that can be read, and gaps that keep them apart.  */
  predicate FileOk(rules: seq<RuleLayout>, gaps: seq<Gap>) {
    && |gaps| == |rules|
    && (forall i :: 0 <= i < |rules| ==> RuleOk(rules[i]) && GapOk(gaps[i]))
    && (forall i :: 0 <= i < |rules| - 1 ==> gaps[i] != [])
  }

  // ---------------------------------------------------------------------------------------------
  // What may come after

  /** No element runs on into `rest`.  */
  predicate Apart(rest: string) {
    rest == [] || White(rest[0]) || rest[0] == '#' || rest[0] == ')' || rest[0] == '>' || rest[0] == '/'
  }

  /** A primary element ends before `rest`.  */
  predicate Touching(rest: string) {
    Apart(rest) || rest[0] == '?' || rest[0] == '+' || rest[0] == '*'
  }

  /** What an expression in the middle of a text is followed by: it neither runs on nor turns a name into
      the head of a rule.  */
  predicate Follows(rest: string) {
    Apart(rest) && !Heads(rest)
  }

  // ---------------------------------------------------------------------------------------------
  // Names, literals and classes

  lemma {:induction false} NameRunStops(n: string, rest: string)
    requires NameRun(n) == |n| && (rest == [] || !NameChar(rest[0]))
    ensures NameRun(n + rest) == |n|
  {
    if n == [] {
      assert n + rest == rest;
    } else {
      assert (n + rest)[1..] == n[1..] + rest;
      NameRunStops(n[1..], rest);
    }
  }

  lemma NameStops(n: string, rest: string)
    requires IsName(n) && (rest == [] || !NameChar(rest[0]))
    ensures NameLength(n + rest) == |n| && (n + rest)[..|n|] == n && (n + rest)[|n|..] == rest
    ensures n[0] == '%' || NameChar(n[0])
  {
    if n[0] == '%' {
      assert (n + rest)[1..] == n[1..] + rest;
      NameRunStops(n[1..], rest);
    } else {
      NameRunStops(n, rest);
    }
  }

  lemma {:induction false} CharsRead(chars: seq<(bool, char)>, rest: string)
    requires Valid(Lit(chars))
    ensures Text(Chars(chars, "'" + rest)) == Done(Plain(chars), rest)
  {
    var s := Chars(chars, "'" + rest);
    if chars == [] {
      assert s[1..] == rest;
    } else {
      var skip := if chars[0].0 then 1 else 0;
      assert s[skip + 1..] == Chars(chars[1..], "'" + rest);
      assert Valid(Lit(chars[1..]));
      CharsRead(chars[1..], rest);
      assert [chars[0].1] + Plain(chars[1..]) == Plain(chars);
    }
  }

  lemma {:induction false} ClassBodyStops(s: string, rest: string)
    requires ClassBody(s).Done?
    ensures ClassBody(s + rest) == Done(ClassBody(s).value, ClassBody(s).rest + rest)
    decreases |s|
  {
    hide ClassBody;
    var t := s + rest;
    ClassUnfolds(s);
    ClassUnfolds(t);
    if s[0] == ']' {
      assert t[1..] == s[1..] + rest;
    } else {
      var step := if s[0] == '\\' then 2 else 1;
      assert t[step..] == s[step..] + rest && t[..step] == s[..step];
      ClassBodyStops(s[step..], rest);
    }
  }

  lemma ClassStops(t: string, rest: string)
    requires IsClass(t) && Touching(rest)
    ensures ClassText(t + rest) == Done(t, rest)
  {
    hide ClassBody;
    ClassBodyStops(t[1..], rest);
    assert (t + rest)[1..] == t[1..] + rest;
    var body := ClassBody(t[1..]);
    assert Starts(body.rest, 'i') ==> (body.rest + rest)[1..] == body.rest[1..] + rest;
    assert body.rest == [] ==> body.rest + rest == rest;
  }

  // ---------------------------------------------------------------------------------------------
  // How written text begins

  predicate Opener(c: char) {
    c == '(' || c == '!' || c == '\'' || c == '[' || c == '<' || c == '%' || NameChar(c)
  }

  /** Text that begins an element, and not an arrow.  */
  predicate Opens(s: string) {
    s != [] && Opener(s[0]) && !Arrow(s)
  }

  lemma OpensStays(s: string)
    requires Opens(s)
    ensures Space(s) == s && !Starts(s, ')')
  {}

  lemma {:induction false} WOpens(l: Layout, tail: string)
    requires Valid(l)
    ensures Opens(W(l, tail))
    ensures Level(l) >= 3 ==> !Starts(W(l, tail), '!')
    decreases l
  {
    match l
    case Name(name) => NameStops(name, []);
    case Apply(name, _, _, _) => NameStops(name, []);
    case Captured(left, inner, right) =>
      var more := W(inner, G(right, ">" + tail));
      WOpens(inner, G(right, ">" + tail));
      if left != [] {
        GapFront(left, more);
      }
      assert W(l, tail)[1..] == G(left, more);
    case Marked(inner, mark) => WOpens(inner, [mark] + tail);
    case Row(items, gaps) => WOpens(items[0], G(gaps[0], RowTo(items[1..], gaps[1..], tail)));
    case Alts(items, before, after) => WOpens(items[0], Rest(items[1..], before, after, tail));
    case _ =>
  }

  /** A name here is not all there is before a closing parenthesis.  */
  predicate NotLone(s: string) {
    NameLength(s) > 0 ==> !Starts(Space(s[NameLength(s)..]), ')')
  }
}
