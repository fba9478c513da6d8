/** The block compressor of the codec table, against a decoder written from sections 1 and 2 of the
    Snappy compressed format description.  */
module Snappy {

  type Byte = b: nat | b < 256 witness 0

  datatype Option<+T> = None | Some(value: T)

  // ---------------------------------------------------------------------------------------------
  // The decoder

  /** Section 1: the uncompressed length, seven bits to a byte, least significant first.  Returns the
      value and how many bytes it took.  */
  function ReadVarint(s: seq<Byte>): (r: Option<(nat, nat)>)
    ensures r.Some? ==> 1 <= r.value.1 <= |s|
  {
    if s == [] then None
    else if s[0] < 128 then Some((s[0], 1))
    else
      match ReadVarint(s[1..])
      case None => None
      case Some((high, used)) => Some((s[0] - 128 + 128 * high, used + 1))
  }

  /** A little-endian number.  */
  function ReadLE(s: seq<Byte>): (n: nat) {
    if s == [] then 0 else s[0] + 256 * ReadLE(s[1..])
  }

  /** A copy, one byte at a time, so that a copy longer than its offset repeats what it has made.  */
  function Copied(made: seq<Byte>, offset: nat, len: nat): (r: seq<Byte>)
    requires 0 < offset <= |made|
    ensures |r| == |made| + len
    decreases len
  {
    if len == 0 then made else Copied(made + [made[|made| - offset]], offset, len - 1)
  }

  datatype Element = Bytes(bytes: seq<Byte>) | Back(len: nat, offset: nat)

  /** Section 2: the element `s` starts with, and how many bytes it takes.  */
  function ReadElement(s: seq<Byte>): (r: Option<(Element, nat)>)
    requires s != []
    ensures r.Some? ==> 1 <= r.value.1 <= |s|
  {
    if s[0] % 4 == 0 then ReadLiteral(s[0] / 4, s[1..]) else ReadCopy(s[0], s[1..])
  }

  /** Section 2.1: a literal, its length less one in the tag or in the one to four bytes after it.  */
  function ReadLiteral(field: nat, rest: seq<Byte>): (r: Option<(Element, nat)>)
    requires field < 64
    ensures r.Some? ==> 1 <= r.value.1 <= |rest| + 1
  {
    var more := if field < 60 then 0 else field - 59;
    if |rest| < more then None
    else
      var len := (if more == 0 then field else ReadLE(rest[..more])) + 1;
      if |rest| < more + len then None
      else Some((Bytes(rest[more..more + len]), 1 + more + len))
  }

  /** Section 2.2: a copy with a one, two or four byte offset.  */
  function ReadCopy(tag: Byte, rest: seq<Byte>): (r: Option<(Element, nat)>)
    ensures r.Some? ==> 1 <= r.value.1 <= |rest| + 1
  {
    var more := if tag % 4 == 1 then 1 else if tag % 4 == 2 then 2 else 4;
    if |rest| < more then None
    else if tag % 4 == 1 then Some((Back(4 + tag / 4 % 8, tag / 32 * 256 + rest[0]), 2))
    else Some((Back(1 + tag / 4, ReadLE(rest[..more])), 1 + more))
  }

  /** What an element adds to what has been made.  */
  function Apply(e: Element, made: seq<Byte>): (r: Option<seq<Byte>>) {
    match e
    case Bytes(bytes) => Some(made + bytes)
    case Back(len, offset) => if offset == 0 || offset > |made| then None else Some(Copied(made, offset, len))
  }

  /** The elements in `s`, added to what has been made so far.  */
  function Elements(s: seq<Byte>, made: seq<Byte>): (r: Option<seq<Byte>>)
    decreases |s|
  {
    if s == [] then Some(made)
    else
      match ReadElement(s)
      case None => None
      case Some((e, used)) =>
        match Apply(e, made)
        case None => None
        case Some(longer) => Elements(s[used..], longer)
  }

  /** A whole block: the length, then elements that make exactly that many bytes.  */
  function Decode(s: seq<Byte>): (r: Option<seq<Byte>>) {
    match ReadVarint(s)
    case None => None
    case Some((len, used)) =>
      match Elements(s[used..], [])
      case Some(made) => if |made| == len then Some(made) else None
      case None => None
  }

  // ---------------------------------------------------------------------------------------------
  // What the compressor writes

  /** The low `count` bytes of `n`, least significant first.  */
  function LowBytes(n: nat, count: nat): (s: seq<Byte>)
    ensures |s| == count
    decreases count
  {
    if count == 0 then [] else [n % 256] + LowBytes(n / 256, count - 1)
  }

  /** How many length bytes follow the tag of a literal.  */
  function LengthBytes(size: nat): (count: nat) {
    if size <= 60 then 0 else if size <= 256 then 1 else if size <= 65536 then 2 else 3
  }

  function LiteralTag(size: nat): (tag: Byte)
    requires 0 < size
  {
    if size <= 60 then 4 * (size - 1) else 4 * (59 + LengthBytes(size))
  }

  /** A literal element, or nothing for no bytes.  */
  function Literal(bytes: seq<Byte>): (s: seq<Byte>) {
    if bytes == [] then []
    else [LiteralTag(|bytes|)] + LowBytes(|bytes| - 1, LengthBytes(|bytes|)) + bytes
  }

  /** A copy element.  The fields of a tag occupy disjoint bits, so they are added.  */
  function Copy(len: nat, offset: nat): (s: seq<Byte>)
    requires 4 <= len <= 64 && 0 < offset < 65536
  {
    if len <= 11 && offset < 2048 then [1 + 4 * (len - 4) + 32 * (offset / 256), offset % 256]
    else [2 + 4 * (len - 1)] + LowBytes(offset, 2)
  }

  function Varint(n: nat): (s: seq<Byte>) {
    if n < 128 then [n] else [n % 128 + 128] + Varint(n / 128)
  }

  // ---------------------------------------------------------------------------------------------
  // Each element reads back

  function Power(count: nat): (p: nat) {
    if count == 0 then 1 else 256 * Power(count - 1)
  }

  lemma {:induction false} LowBytesRead(n: nat, count: nat)
    ensures ReadLE(LowBytes(n, count)) < Power(count)
    ensures n < Power(count) ==> ReadLE(LowBytes(n, count)) == n
    decreases count
  {
    if count > 0 {
      LowBytesRead(n / 256, count - 1);
      assert LowBytes(n, count)[1..] == LowBytes(n / 256, count - 1);
    }
  }

  lemma Powers()
    ensures Power(1) == 256 && Power(2) == 65536 && Power(3) == MAX_LITERAL
  {
    assert Power(2) == 256 * Power(1);
    assert Power(3) == 256 * Power(2);
  }

  /** The longest literal three length bytes can describe.  */
  const MAX_LITERAL: nat := 16_777_216

  /** What a literal's header announces as its size.  */
  function Announced(size: nat): (announced: nat)
    requires 0 < size
  {
    (if LengthBytes(size) == 0 then LiteralTag(size) / 4 else ReadLE(LowBytes(size - 1, LengthBytes(size)))) + 1
  }

  /** The size a literal's header announces is its size exactly when it fits three bytes: a longer
      literal is written with its length cut off.  */
  lemma AnnouncedIsSize(size: nat)
    requires 0 < size
    ensures Announced(size) == size <==> size <= MAX_LITERAL
  {
    LowBytesRead(size - 1, LengthBytes(size));
    Powers();
  }

  /** A literal reads back, whatever follows it, exactly when its size fits the header.  */
  lemma LiteralReads(bytes: seq<Byte>, rest: seq<Byte>)
    requires 0 < |bytes|
    ensures ReadElement(Literal(bytes) + rest) == Some((Bytes(bytes), |Literal(bytes)|)) <==> |bytes| <= MAX_LITERAL
  {
    hide ReadLE, LowBytes;
    var s := Literal(bytes) + rest;
    var more := LengthBytes(|bytes|);
    assert s[1..] == LowBytes(|bytes| - 1, more) + bytes + rest;
    assert s[1..][..more] == LowBytes(|bytes| - 1, more);
    assert s[1..][more..more + |bytes|] == bytes;
    AnnouncedIsSize(|bytes|);
    var r := ReadElement(s);
    assert r.Some? ==> |r.value.0.bytes| == Announced(|bytes|);
  }

  /** So does a copy.  */
  lemma CopyReads(len: nat, offset: nat, rest: seq<Byte>)
    requires 4 <= len <= 64 && 0 < offset < 65536
    ensures ReadElement(Copy(len, offset) + rest) == Some((Back(len, offset), |Copy(len, offset)|))
  {
    hide ReadLE, LowBytes;
    var s := Copy(len, offset) + rest;
    if len <= 11 && offset < 2048 {
      assert s[1..] == [offset % 256] + rest;
      ShortTag(len - 4, offset / 256);
    } else {
      assert s[1..] == LowBytes(offset, 2) + rest;
      assert s[1..][..2] == LowBytes(offset, 2);
      LowBytesRead(offset, 2);
      Powers();
    }
  }

  /** The three fields of a short copy's tag come apart again.  */
  lemma ShortTag(len: nat, high: nat)
    requires len < 8 && high < 8
    ensures var tag := 1 + 4 * len + 32 * high; tag % 4 == 1 && tag / 4 % 8 == len && tag / 32 == high
  {}

  lemma {:induction false} VarintReads(n: nat, rest: seq<Byte>)
    ensures ReadVarint(Varint(n) + rest) == Some((n, |Varint(n)|))
  {
    var s := Varint(n) + rest;
    if n >= 128 {
      assert s[1..] == Varint(n / 128) + rest;
      VarintReads(n / 128, rest);
    }
  }

  lemma VarintShort(n: nat)
    requires n <= MAX_LITERAL
    ensures |Varint(n)| <= 4
  {
    assert n >= 128 ==> |Varint(n)| == 1 + |Varint(n / 128)|;
    var m := n / 128;
    assert m >= 128 ==> |Varint(m)| == 1 + |Varint(m / 128)|;
    var l := m / 128;
    assert l >= 128 ==> |Varint(l)| == 1 + |Varint(l / 128)|;
    assert l / 128 < 128;
  }

  /** A match that runs for `len` bytes is what a copy of that length makes, even where it overlaps the
      bytes it is making.  */
  lemma {:induction false} MatchCopies(input: seq<Byte>, candidate: nat, at: nat, len: nat)
    requires candidate < at && at + len <= |input|
    requires input[candidate..candidate + len] == input[at..at + len]
    ensures Copied(input[..at], at - candidate, len) == input[..at + len]
    decreases len
  {
    if len > 0 {
      assert input[candidate..candidate + len][0] == input[at..at + len][0];
      assert input[..at] + [input[at]] == input[..at + 1];
      assert input[candidate + 1..candidate + len] == input[candidate..candidate + len][1..];
      assert input[at + 1..at + len] == input[at..at + len][1..];
      MatchCopies(input, candidate + 1, at + 1, len - 1);
    }
  }

  // ---------------------------------------------------------------------------------------------
  // The compressor

  /** Whatever comes after `body`, decoding it first makes `made`.  */
  ghost predicate Makes(body: seq<Byte>, made: seq<Byte>) {
    forall rest: seq<Byte> :: Elements(body + rest, []) == Elements(rest, made)
  }

  lemma MakesLiteral(body: seq<Byte>, made: seq<Byte>, bytes: seq<Byte>)
    requires Makes(body, made) && |bytes| <= MAX_LITERAL
    ensures Makes(body + Literal(bytes), made + bytes)
  {
    hide ReadElement, Literal;
    forall rest: seq<Byte>
      ensures Elements(body + Literal(bytes) + rest, []) == Elements(rest, made + bytes)
    {
      assert body + Literal(bytes) + rest == body + (Literal(bytes) + rest);
      LiteralElements(bytes, rest, made);
    }
  }

  lemma LiteralElements(bytes: seq<Byte>, rest: seq<Byte>, made: seq<Byte>)
    requires |bytes| <= MAX_LITERAL
    ensures Elements(Literal(bytes) + rest, made) == Elements(rest, made + bytes)
  {
    hide ReadElement;
    if bytes == [] {
      assert Literal(bytes) + rest == rest && made + bytes == made;
    } else {
      LiteralReads(bytes, rest);
      assert (Literal(bytes) + rest)[|Literal(bytes)|..] == rest;
    }
  }

  lemma MakesCopy(body: seq<Byte>, made: seq<Byte>, len: nat, offset: nat)
    requires Makes(body, made) && 4 <= len <= 64 && 0 < offset < 65536 && offset <= |made|
    ensures Makes(body + Copy(len, offset), Copied(made, offset, len))
  {
    hide ReadElement, Copy, Copied;
    forall rest: seq<Byte>
      ensures Elements(body + Copy(len, offset) + rest, []) == Elements(rest, Copied(made, offset, len))
    {
      assert body + Copy(len, offset) + rest == body + (Copy(len, offset) + rest);
      CopyElements(len, offset, rest, made);
    }
  }

  lemma CopyElements(len: nat, offset: nat, rest: seq<Byte>, made: seq<Byte>)
    requires 4 <= len <= 64 && 0 < offset < 65536 && offset <= |made|
    ensures Elements(Copy(len, offset) + rest, made) == Elements(rest, Copied(made, offset, len))
  {
    hide ReadElement, Copied;
    CopyReads(len, offset, rest);
    assert (Copy(len, offset) + rest)[|Copy(len, offset)|..] == rest;
  }

  // ---------------------------------------------------------------------------------------------
  // Lists of elements

  /** An element the compressor can write.  */
  ghost predicate Writable(e: Element) {
    match e
    case Bytes(bytes) => bytes != []
    case Back(len, offset) => 4 <= len <= 64 && 0 < offset < 65536
  }

  ghost predicate AllWritable(elements: seq<Element>) {
    forall i :: 0 <= i < |elements| ==> Writable(elements[i])
  }

  /** No literal outgrows its header.  */
  ghost predicate AllFit(elements: seq<Element>) {
    forall i :: 0 <= i < |elements| && elements[i].Bytes? ==> |elements[i].bytes| <= MAX_LITERAL
  }

  ghost function Written(e: Element): (s: seq<Byte>)
    requires Writable(e)
  {
    match e
    case Bytes(bytes) => Literal(bytes)
    case Back(len, offset) => Copy(len, offset)
  }

  ghost function Encoding(elements: seq<Element>): (s: seq<Byte>)
    requires AllWritable(elements)
  {
    if elements == [] then []
    else Encoding(elements[..|elements| - 1]) + Written(elements[|elements| - 1])
  }

  /** What the elements make from nothing.  */
  ghost function Performed(elements: seq<Element>): (r: Option<seq<Byte>>) {
    if elements == [] then Some([])
    else
      match Performed(elements[..|elements| - 1])
      case None => None
      case Some(made) => Apply(elements[|elements| - 1], made)
  }

  lemma EncodingGrows(elements: seq<Element>, e: Element)
    requires AllWritable(elements) && Writable(e)
    ensures AllWritable(elements + [e]) && Encoding(elements + [e]) == Encoding(elements) + Written(e)
    ensures Performed(elements).Some? ==> Performed(elements + [e]) == Apply(e, Performed(elements).value)
  {
    assert (elements + [e])[..|elements|] == elements;
  }

  /** Decoding what was written performs it.  */
  lemma {:induction false} EncodingMakes(elements: seq<Element>)
    requires AllWritable(elements) && AllFit(elements) && Performed(elements).Some?
    ensures Makes(Encoding(elements), Performed(elements).value)
    decreases |elements|
  {
    hide Makes, Literal, Copy, Copied;
    if elements == [] {
      NothingMade();
    } else {
      var before, last := elements[..|elements| - 1], elements[|elements| - 1];
      EncodingMakes(before);
      var made := Performed(before).value;
      match last
      case Bytes(bytes) => MakesLiteral(Encoding(before), made, bytes);
      case Back(len, offset) => MakesCopy(Encoding(before), made, len, offset);
    }
  }

  /** No literal is longer than what is made.  */
  lemma {:induction false} LiteralsWithin(elements: seq<Element>)
    requires Performed(elements).Some?
    ensures forall i :: 0 <= i < |elements| && elements[i].Bytes? ==> |elements[i].bytes| <= |Performed(elements).value|
    decreases |elements|
  {
    if elements != [] {
      LiteralsWithin(elements[..|elements| - 1]);
    }
  }

  lemma NothingMade()
    ensures Makes([], [])
  {
    assert forall rest: seq<Byte> :: [] + rest == rest;
  }

  // ---------------------------------------------------------------------------------------------
  // The loop

  const SLOTS: nat := 65536
  const NOWHERE: nat := 0xffff_ffff

  /** Which slot of the table a four byte sequence falls in.  */
  function Slot(word: nat): (slot: nat)
    ensures slot < SLOTS
  {
    word * 0x1e35_a7bd % 0x1_0000_0000 / 65536
  }

  /** How far the match runs, at most 64 bytes.  */
  method MatchLength(input: seq<Byte>, candidate: nat, at: nat) returns (len: nat)
    requires candidate < at && at + 4 <= |input|
    requires input[candidate..candidate + 4] == input[at..at + 4]
    ensures 4 <= len <= 64 && at + len <= |input|
    ensures input[candidate..candidate + len] == input[at..at + len]
  {
    len := 4;
    while len < 64 && at + len < |input| && input[candidate + len] == input[at + len]
      invariant 4 <= len <= 64 && at + len <= |input|
      invariant input[candidate..candidate + len] == input[at..at + len]
    {
      assert input[candidate..candidate + len + 1] == input[candidate..candidate + len] + [input[candidate + len]];
      assert input[at..at + len + 1] == input[at..at + len] + [input[at + len]];
      len := len + 1;
    }
  }

  /** A literal and the copy after it grow by no more than a sixty first of the literal.  */
  lemma PairGrows(literal: seq<Byte>, len: nat, offset: nat)
    requires 4 <= len <= 64 && 0 < offset < 65536
    ensures |Literal(literal)| + |Copy(len, offset)| <= |literal| + len + |literal| / 61
  {}

  lemma BoundAdds(a: nat, b: nat, c: nat)
    ensures a / 61 + b / 61 <= (a + b + c) / 61
  {}

  /** The elements written so far make the input up to `from`, and `body` is how they are written.  */
  ghost predicate Covers(input: seq<Byte>, body: seq<Byte>, elements: seq<Element>, from: nat) {
    && from <= |input| && AllWritable(elements)
    && body == Encoding(elements) && Performed(elements) == Some(input[..from])
  }

  ghost function WithLiteral(elements: seq<Element>, bytes: seq<Byte>): (r: seq<Element>) {
    if bytes == [] then elements else elements + [Bytes(bytes)]
  }

  lemma LiteralCovers(input: seq<Byte>, body: seq<Byte>, elements: seq<Element>, from: nat, at: nat)
    requires Covers(input, body, elements, from) && from <= at <= |input|
    ensures var literal := input[from..at];
            Covers(input, body + Literal(literal), WithLiteral(elements, literal), at)
  {
    hide Encoding, Performed;
    var literal := input[from..at];
    assert input[..from] + literal == input[..at];
    if literal == [] {
      assert body + Literal(literal) == body && from == at;
    } else {
      EncodingGrows(elements, Bytes(literal));
    }
  }

  lemma CopyCovers(input: seq<Byte>, body: seq<Byte>, elements: seq<Element>, candidate: nat, at: nat, len: nat)
    requires Covers(input, body, elements, at)
    requires candidate < at && at - candidate < 65536 && at + len <= |input|
    requires 4 <= len <= 64 && input[candidate..candidate + len] == input[at..at + len]
    ensures Covers(input, body + Copy(len, at - candidate), elements + [Back(len, at - candidate)], at + len)
  {
    hide Encoding, Performed, Copied, Copy;
    EncodingGrows(elements, Back(len, at - candidate));
    MatchCopies(input, candidate, at, len);
  }

  /** One literal and copy pair takes the block from what precedes the literal to what follows the
      match.  */
  lemma PairCovers(input: seq<Byte>, body: seq<Byte>, elements: seq<Element>, literalFrom: nat, candidate: nat,
                   at: nat, len: nat)
    requires Covers(input, body, elements, literalFrom)
    requires literalFrom <= at && candidate < at && at - candidate < 65536 && at + len <= |input|
    requires 4 <= len <= 64 && input[candidate..candidate + len] == input[at..at + len]
    requires |body| <= literalFrom + literalFrom / 61
    ensures var literal := input[literalFrom..at];
            var longer := body + Literal(literal) + Copy(len, at - candidate);
            && |longer| <= at + len + (at + len) / 61
            && Covers(input, longer, WithLiteral(elements, literal) + [Back(len, at - candidate)], at + len)
  {
    hide Covers, Literal, Copy;
    var literal := input[literalFrom..at];
    LiteralCovers(input, body, elements, literalFrom, at);
    CopyCovers(input, body + Literal(literal), WithLiteral(elements, literal), candidate, at, len);
    PairGrows(literal, len, at - candidate);
    BoundAdds(literalFrom, |literal|, len);
  }

  /** The four bytes at `at` as a little-endian number.  */
  function Word(input: seq<Byte>, at: nat): (word: nat)
    requires at + 4 <= |input|
  {
    ReadLE(input[at..at + 4])
  }

  /** Compresses a block.  What is written is a list of elements that make the input.  Decoding performs
      them as long as no literal outgrows its header, which none does in a block of up to sixteen
      megabytes, and the block is never much larger than the input.  */
  method Compress(input: seq<Byte>) returns (out: seq<Byte>, ghost elements: seq<Element>)
    ensures AllWritable(elements) && out == Varint(|input|) + Encoding(elements)
    ensures Performed(elements) == Some(input)
    ensures AllFit(elements) ==> Decode(out) == Some(input)
    ensures |out| <= |input| + |input| / 61 + 1 + |Varint(|input|)|
    ensures |input| <= MAX_LITERAL ==> Decode(out) == Some(input) && |out| <= |input| + |input| / 61 + 5
  {
    hide Covers, Literal, Copy, Slot, Word;
    var body: seq<Byte> := [];
    var table := new nat[SLOTS](_ => NOWHERE);
    var at, literalFrom := 0, 0;
    elements := [];
    NothingCovered(input);
    while at + 4 <= |input|
      invariant 0 <= literalFrom <= at <= |input|
      invariant Covers(input, body, elements, literalFrom)
      invariant |body| <= literalFrom + literalFrom / 61
      decreases |input| - at
    {
      var slot := Slot(Word(input, at));
      var candidate := table[slot];
      table[slot] := at % 0x1_0000_0000;
      var matched := candidate != NOWHERE && at > candidate && at - candidate < 65536
                     && input[candidate..candidate + 4] == input[at..at + 4];
      if !matched {
        at := at + 1;
        continue;
      }
      var len := MatchLength(input, candidate, at);
      PairCovers(input, body, elements, literalFrom, candidate, at, len);
      elements := WithLiteral(elements, input[literalFrom..at]) + [Back(len, at - candidate)];
      body := body + Literal(input[literalFrom..at]) + Copy(len, at - candidate);
      at := at + len;
      literalFrom := at;
    }
    LiteralCovers(input, body, elements, literalFrom, |input|);
    LastGrows(input[literalFrom..], literalFrom);
    assert input[literalFrom..|input|] == input[literalFrom..];
    elements := WithLiteral(elements, input[literalFrom..]);
    body := body + Literal(input[literalFrom..]);
    out := Varint(|input|) + body;
    CoveredDecodes(input, body, elements);
    if |input| <= MAX_LITERAL { VarintShort(|input|); }
  }

  lemma NothingCovered(input: seq<Byte>)
    ensures Covers(input, [], [], 0)
  {
    assert input[..0] == [];
  }

  lemma LastGrows(last: seq<Byte>, literalFrom: nat)
    ensures literalFrom + literalFrom / 61 + |Literal(last)| <= (literalFrom + |last|) + (literalFrom + |last|) / 61 + 1
  {
    BoundAdds(literalFrom, |last|, 0);
  }

  /** A block whose elements cover the input decodes to it.  */
  lemma CoveredDecodes(input: seq<Byte>, body: seq<Byte>, elements: seq<Element>)
    requires Covers(input, body, elements, |input|)
    ensures AllWritable(elements) && body == Encoding(elements) && Performed(elements) == Some(input)
    ensures AllFit(elements) ==> Decode(Varint(|input|) + body) == Some(input)
    ensures |input| <= MAX_LITERAL ==> AllFit(elements)
  {
    hide Encoding, Performed, Elements;
    assert input[..|input|] == input;
    VarintReads(|input|, body);
    assert (Varint(|input|) + body)[|Varint(|input|)|..] == body;
    if AllFit(elements) {
      EncodingMakes(elements);
      MadeAll(body, input);
    }
    LiteralsWithin(elements);
  }

  lemma MadeAll(body: seq<Byte>, made: seq<Byte>)
    requires Makes(body, made)
    ensures Elements(body, []) == Some(made)
  {
    assert body + [] == body;
    assert Elements(body + [], []) == Elements([], made);
  }
}
