/** The parser of grammar files: a cursor over the text.  */
module GrammarParser {
  import RuleTable
  import opened Syntax
  import opened Reading

  datatype Result<+T> = Ok(value: T) | Err(fault: Fault)

  /** One step inside a character class.  */
  lemma ClassSteps(text: string, start: nat, at: nat, step: nat)
    requires start <= at && at + step <= |text| && 0 < step && ClassBody(text[at..]) == Prepend(text[at..][..step], ClassBody(text[at..][step..]))
    ensures Prepend(text[start..at], ClassBody(text[at..])) == Prepend(text[start..at + step], ClassBody(text[at + step..]))
  {
    hide ClassBody;
    assert text[at..][step..] == text[at + step..] && text[at..][..step] == text[at..at + step];
    PrependTwice(text[start..at], text[at..at + step], ClassBody(text[at + step..]));
    assert text[start..at] + text[at..at + step] == text[start..at + step];
  }

  class Parser {
    const text: string
    var at: nat

    /** What the cursor has not reached.  */
    ghost function Rest(): string
      reads this
      requires at <= |text|
    {
      text[at..]
    }

    ghost predicate Valid()
      reads this
    {
      at <= |text|
    }

    /** A step did what `read` says: the same value and the cursor at the same rest, or the same fault.  */
    ghost predicate Did<T>(r: Result<T>, read: Read<T>)
      reads this
    {
      match read
      case Done(value, rest) => Valid() && r == Ok(value) && Rest() == rest
      case Bad(fault) => r == Err(fault)
    }

    constructor (text: string)
      ensures this.text == text && Valid() && Rest() == text
    {
      this.text := text;
      at := 0;
    }

    predicate Looking(c: char)
      reads this
      requires Valid()
      ensures Looking(c) == Starts(Rest(), c)
    {
      at < |text| && text[at] == c
    }

    /** Skips space and comments.  */
    method SkipSpace()
      requires Valid()
      modifies this
      ensures Valid() && Rest() == Space(old(Rest())) && at >= old(at)
    {
      while at < |text| && (White(text[at]) || text[at] == '#')
        invariant Valid() && at >= old(at) && Space(Rest()) == Space(old(Rest()))
        decreases |text| - at
      {
        assert Rest()[1..] == text[at + 1..];
        if White(text[at]) {
          at := at + 1;
        } else {
          ghost var after := text[at + 1..];
          at := at + 1;
          while at < |text| && text[at] != '\n'
            invariant Valid() && at > old(at) && Line(Rest()) == Line(after)
          {
            assert Rest()[1..] == text[at + 1..];
            at := at + 1;
          }
        }
      }
    }

    /** Passes over the letters of a name.  */
    method RunLetters()
      requires Valid()
      modifies this
      ensures Valid() && at == old(at) + NameRun(old(Rest())) && NameRun(Rest()) == 0
    {
      ghost var from := at;
      while at < |text| && NameChar(text[at])
        invariant from <= at <= |text| && NameRun(text[from..]) == at - from + NameRun(text[at..])
      {
        assert text[at..][1..] == text[at + 1..];
        at := at + 1;
      }
    }

    /** Takes a name, or nothing.  */
    method TakeName() returns (name: RuleTable.Option<string>)
      requires Valid()
      modifies this
      ensures Valid() && at >= old(at)
      ensures var n := NameLength(old(Rest()));
              && name == (if n == 0 then RuleTable.None else RuleTable.Some(old(Rest())[..n]))
              && Rest() == old(Rest())[n..]
    {
      hide NameRun, NameLength;
      var start := at;
      if Looking('%') {
        at := at + 1;
      }
      RunLetters();
      NameTaken(text, start, at);
      if start == at || text[start..at] == "%" {
        at := start;
        return RuleTable.None;
      }
      return RuleTable.Some(text[start..at]);
    }

    method Expect(c: char) returns (r: Result<()>)
      requires Valid()
      modifies this
      ensures Did(r, if Starts(old(Rest()), c) then Done((), old(Rest())[1..]) else Bad(Expected(c)))
    {
      if Looking(c) {
        assert Rest()[1..] == text[at + 1..];
        at := at + 1;
        return Ok(());
      }
      return Err(Expected(c));
    }

    method TakeArrow() returns (b: bool)
      requires Valid()
      modifies this
      ensures Valid() && at >= old(at) && b == Arrow(old(Rest()))
      ensures Rest() == if b then old(Rest())[2..] else old(Rest())
    {
      b := at + 2 <= |text| && text[at] == '<' && text[at + 1] == '-';
      if b {
        assert Rest()[2..] == text[at + 2..];
        at := at + 2;
      }
    }

    /** The rest of a rule head, after its name.  */
    method TakeHead() returns (b: bool)
      requires Valid()
      modifies this
      ensures b == Heads(old(Rest()))
    {
      hide Space, NameLength, NameRun;
      SkipSpace();
      if Looking('(') {
        assert Rest()[1..] == text[at + 1..];
        at := at + 1;
        SkipSpace();
        var name := TakeName();
        if name.None? {
          return false;
        }
        SkipSpace();
        if !Looking(')') {
          return false;
        }
        assert Rest()[1..] == text[at + 1..];
        at := at + 1;
        SkipSpace();
      }
      b := TakeArrow();
    }

    /** Looks ahead for a rule head without moving.  */
    method LooksAtRule() returns (b: bool)
      requires Valid()
      ensures b == AtRuleStart(Rest())
    {
      hide Heads, NameLength, NameRun;
      var probe := new Parser(text);
      probe.at := at;
      var name := probe.TakeName();
      if name.None? {
        return false;
      }
      b := probe.TakeHead();
    }

    method ParseLiteral() returns (r: Result<string>)
      requires Valid() && Starts(Rest(), '\'')
      modifies this
      ensures Did(r, Text(old(Rest())[1..]))
    {
      hide Text;
      assert Rest()[1..] == text[at + 1..];
      at := at + 1;
      ghost var start := Rest();
      var out := "";
      PrependNothing(Text(start));
      while true
        invariant Valid() && Text(start) == Prepend(out, Text(Rest()))
        decreases |text| - at
      {
        ghost var here := Rest();
        TextUnfolds(here);
        if at == |text| {
          return Err(OpenLiteral);
        }
        if text[at] == '\'' {
          assert Rest()[1..] == text[at + 1..];
          PrependLast(out, text[at + 1..]);
          at := at + 1;
          return Ok(out);
        }
        if text[at] == '\\' {
          if at + 1 == |text| {
            return Err(OpenEscape);
          }
          at := at + 1;
        }
        assert text[at + 1..] == here[|here| - |text[at + 1..]|..];
        PrependTwice(out, [text[at]], Text(text[at + 1..]));
        out := out + [text[at]];
        at := at + 1;
      }
    }

    /** Steps over the inside of a character class and its closing bracket.  */
    method SkipClass() returns (r: Result<string>)
      requires Valid()
      modifies this
      ensures Did(r, ClassBody(old(Rest())))
      ensures r.Ok? ==> old(at) <= at && r.value == text[old(at)..at]
    {
      hide ClassBody;
      var start := at;
      PrependNothing(ClassBody(Rest()));
      assert text[start..at] == [];
      while at < |text| && text[at] != ']'
        invariant start <= at <= |text| && ClassBody(old(Rest())) == Prepend(text[start..at], ClassBody(Rest()))
        decreases |text| - at
      {
        ClassUnfolds(Rest());
        var step := if text[at] == '\\' then 2 else 1;
        if at + step > |text| {
          return Err(PastEnd);
        }
        ClassSteps(text, start, at, step);
        at := at + step;
      }
      ClassUnfolds(Rest());
      if at == |text| {
        return Err(OpenClass);
      }
      assert Rest()[1..] == text[at + 1..];
      assert text[start..at] + "]" == text[start..at + 1];
      at := at + 1;
      return Ok(text[start..at]);
    }

    method ParseClass() returns (r: Result<string>)
      requires Valid() && Starts(Rest(), '[')
      modifies this
      ensures Did(r, ClassText(old(Rest())))
    {
      hide ClassBody;
      var start := at;
      assert Rest()[1..] == text[at + 1..];
      at := at + 1;
      r := SkipClass();
      if r.Err? {
        return;
      }
      assert "[" + r.value == text[start..at];
      if Looking('i') {
        assert Rest()[1..] == text[at + 1..];
        assert text[start..at] + "i" == text[start..at + 1];
        at := at + 1;
      }
      return Ok(text[start..at]);
    }

    method ParseEnclosed(close: char) returns (r: Result<Expr>)
      requires Valid()
      modifies this
      ensures Did(r, Enclosed(old(Rest()), close))
      decreases |text| - at, 7
    {
      r := ParseChoice();
      if r.Err? {
        return;
      }
      SkipSpace();
      var closed := Expect(close);
      if closed.Err? {
        return Err(closed.fault);
      }
    }

    method ParsePrimary() returns (r: Result<Expr>)
      requires Valid()
      modifies this
      ensures Did(r, Primary(old(Rest())))
      decreases |text| - at, 1
    {
      ghost var s := Rest();
      if Looking('\'') {
        var literal := ParseLiteral();
        r := if literal.Ok? then Ok(Literal(literal.value)) else Err(literal.fault);
      } else if Looking('[') {
        var class_ := ParseClass();
        r := if class_.Ok? then Ok(CharClass(class_.value)) else Err(class_.fault);
      } else if Looking('(') {
        assert s[1..] == text[at + 1..];
        at := at + 1;
        r := ParseEnclosed(')');
      } else if Looking('<') {
        assert s[1..] == text[at + 1..];
        at := at + 1;
        r := ParseEnclosed('>');
        r := if r.Ok? then Ok(Capture(r.value)) else r;
      } else {
        var name := TakeName();
        if name.None? {
          return Err(NoReference);
        }
        if !Looking('(') {
          return Ok(Reference(name.value));
        }
        assert Rest()[1..] == text[at + 1..] == s[NameLength(s) + 1..];
        at := at + 1;
        r := ParseEnclosed(')');
        r := if r.Ok? then Ok(Call(name.value, r.value)) else r;
      }
    }

    method ParseSuffixed() returns (r: Result<Expr>)
      requires Valid()
      modifies this
      ensures Did(r, Suffixed(old(Rest())))
      decreases |text| - at, 2
    {
      r := ParsePrimary();
      if r.Err? {
        return;
      }
      assert at < |text| ==> Rest()[1..] == text[at + 1..];
      if Looking('?') {
        at := at + 1;
        return Ok(Optional(r.value));
      } else if Looking('+') {
        at := at + 1;
        return Ok(Repeat(r.value));
      } else if Looking('*') {
        at := at + 1;
        return Ok(Optional(Repeat(r.value)));
      }
    }

    method ParsePrefixed() returns (r: Result<Expr>)
      requires Valid()
      modifies this
      ensures Did(r, Prefixed(old(Rest())))
      decreases |text| - at, 3
    {
      if Looking('!') {
        assert Rest()[1..] == text[at + 1..];
        at := at + 1;
        SkipSpace();
        r := ParseSuffixed();
        r := if r.Ok? then Ok(Not(r.value)) else r;
      } else {
        r := ParseSuffixed();
      }
    }

    method ParseSequence() returns (r: Result<Expr>)
      requires Valid()
      modifies this
      ensures Did(r, Sequences(old(Rest())))
      decreases |text| - at, 5
    {
      hide Space, AtRuleStart, Prefixed;
      ghost var s := Rest();
      var items: seq<Expr> := [];
      PrependNothing(Items(s));
      while true
        invariant Valid() && at >= old(at) && Items(s) == Prepend(items, Items(Rest()))
        decreases |text| - at
      {
        ghost var before := Rest();
        SkipSpace();
        var start := LooksAtRule();
        if start || at == |text| || text[at] == '/' || text[at] == ')' || text[at] == '>' {
          PrependLast(items, Rest());
          break;
        }
        var item := ParsePrefixed();
        if item.Err? {
          return Err(item.fault);
        }
        PrependTwice(items, [item.value], Items(Rest()));
        items := items + [item.value];
      }
      if items == [] {
        return Err(NoExpression);
      }
      return Ok(SequenceOf(items));
    }

    method ParseChoice() returns (r: Result<Expr>)
      requires Valid()
      modifies this
      ensures Did(r, Choices(old(Rest())))
      decreases |text| - at, 6
    {
      hide Space, Sequences;
      r := ParseSequence();
      if r.Err? {
        return;
      }
      ghost var s := Rest();
      var branches := [r.value];
      while true
        invariant Valid() && at > old(at) && branches != []
        invariant Prepend([r.value], Branches(s)) == Prepend(branches, Branches(Rest()))
        decreases |text| - at
      {
        ghost var before := Rest();
        SkipSpace();
        if !Looking('/') {
          PrependLast(branches, Rest());
          break;
        }
        assert Rest()[1..] == text[at + 1..];
        at := at + 1;
        var branch := ParseSequence();
        if branch.Err? {
          return Err(branch.fault);
        }
        PrependTwice(branches, [branch.value], Branches(Rest()));
        branches := branches + [branch.value];
      }
      return Ok(ChoiceOf(branches));
    }

    method ParseParameter() returns (r: Result<RuleTable.Option<string>>)
      requires Valid()
      modifies this
      ensures Did(r, Parameter(old(Rest()))) && (r.Ok? ==> at >= old(at))
    {
      hide Space, NameLength, NameRun;
      if !Looking('(') {
        return Ok(RuleTable.None);
      }
      assert Rest()[1..] == text[at + 1..];
      at := at + 1;
      SkipSpace();
      var name := TakeName();
      if name.None? {
        return Err(NoParameterName);
      }
      SkipSpace();
      var closed := Expect(')');
      if closed.Err? {
        return Err(closed.fault);
      }
      SkipSpace();
      return Ok(name);
    }

    method ParseRule() returns (r: Result<Rule>)
      requires Valid()
      modifies this
      ensures Did(r, RuleText(old(Rest())))
    {
      hide Space, NameLength, NameRun, Choices, Parameter;
      var name := TakeName();
      if name.None? {
        return Err(NoRuleName);
      }
      SkipSpace();
      var parameter := ParseParameter();
      if parameter.Err? {
        return Err(parameter.fault);
      }
      var arrow := TakeArrow();
      if !arrow {
        return Err(NoArrow);
      }
      var body := ParseChoice();
      r := if body.Ok? then Ok(Rule.Rule(name.value, parameter.value, body.value)) else Err(body.fault);
    }

    /** Reads a whole file.  */
    method ParseFile() returns (r: Result<seq<Rule>>)
      requires Valid()
      modifies this
      ensures Did(r, File(old(Rest())))
    {
      ghost var s := Rest();
      var rules: seq<Rule> := [];
      PrependNothing(File(s));
      SkipSpace();
      ghost var before := s;
      while at < |text|
        invariant Valid() && Rest() == Space(before) && File(s) == Prepend(rules, File(before))
        decreases |text| - at
      {
        var rule := ParseRule();
        if rule.Err? {
          return Err(rule.fault);
        }
        PrependTwice(rules, [rule.value], File(Rest()));
        rules := rules + [rule.value];
        before := Rest();
        SkipSpace();
      }
      PrependLast(rules, []);
      return Ok(rules);
    }
  }

  /** A percent sign and letters, or letters, are a name unless they are nothing or a lone percent sign.  */
  lemma NameTaken(text: string, start: nat, end: nat)
    requires start <= end <= |text|
    requires if Starts(text[start..], '%') then end == start + 1 + NameRun(text[start + 1..]) else end == start + NameRun(text[start..])
    ensures var n := NameLength(text[start..]);
            if start == end || text[start..end] == "%" then n == 0
            else n == end - start && text[start..][..n] == text[start..end] && text[start..][n..] == text[end..]
  {
    var s := text[start..];
    assert s[..end - start] == text[start..end] && s[end - start..] == text[end..];
    if Starts(s, '%') {
      assert s[1..] == text[start + 1..];
      assert s[..1] == "%";
    } else if start < end {
      assert text[start..end][0] != '%';
    }
  }
}
