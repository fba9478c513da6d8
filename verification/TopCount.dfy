/** The bounded top count: bucket counts in one pass, exact counts of the heaviest buckets in a second,
    and a certificate that nothing left out could have displaced an answer.  */
module TopCount {
  import opened Ordering
  import opened Sets

  type Row = (string, nat)

  function Min(a: nat, b: nat): nat {
    if a < b then a else b
  }

  // ---------------------------------------------------------------------------------------------
  // The answer

  /** Larger counts first, ties by key.  */
  predicate Ahead(a: Row, b: Row) {
    a.1 > b.1 || (a.1 == b.1 && Before(a.0, b.0))
  }

  lemma AheadOrders(a: Row, b: Row, c: Row)
    ensures Ahead(a, b) || Ahead(b, a) || a == b
    ensures !(Ahead(a, b) && Ahead(b, a))
    ensures Ahead(a, b) && Ahead(b, c) ==> Ahead(a, c)
  {
    BeforeTotal(a.0, b.0);
    if Before(a.0, b.0) && Before(b.0, a.0) {
      BeforeTransitive(a.0, b.0, a.0);
      BeforeIrreflexive(a.0);
    }
    if Before(a.0, b.0) && Before(b.0, c.0) {
      BeforeTransitive(a.0, b.0, c.0);
    }
  }

  lemma AheadIsOrder()
    ensures Orders(Ahead)
  {
    forall a, b, c
      ensures (Ahead(a, b) || Ahead(b, a) || a == b) && !(Ahead(a, b) && Ahead(b, a))
      ensures Ahead(a, b) && Ahead(b, c) ==> Ahead(a, c)
    {
      AheadOrders(a, b, c);
    }
    assert forall a :: !(Ahead(a, a) && Ahead(a, a));
  }

  /** `answer` is the `rows` rows of `counts` that come first, in order.  */
  ghost predicate IsTop(counts: map<string, nat>, rows: nat, answer: seq<Row>) {
    && InOrder(Ahead, answer)
    && |answer| == Min(rows, |counts|)
    && (forall i :: 0 <= i < |answer| ==> answer[i].0 in counts && counts[answer[i].0] == answer[i].1)
    && (forall k, i :: k in counts && (k, counts[k]) !in answer && 0 <= i < |answer| ==> Ahead(answer[i], (k, counts[k])))
  }

  /** In the answer counts do not rise and ties are in byte order; and a key left out is no more frequent than the
      last row, and after it in byte order when it is as frequent.  */
  lemma TopMeans(counts: map<string, nat>, rows: nat, answer: seq<Row>)
    requires IsTop(counts, rows, answer)
    ensures forall i, j :: 0 <= i < j < |answer| ==>
              answer[i].1 >= answer[j].1 && (answer[i].1 == answer[j].1 ==> Before(answer[i].0, answer[j].0))
    ensures forall k, i :: k in counts && (k, counts[k]) !in answer && 0 <= i < |answer| ==>
              counts[k] <= answer[i].1 && (counts[k] == answer[i].1 ==> Before(answer[i].0, k))
    ensures rows <= |counts| ==> |answer| == rows
    ensures |counts| <= rows ==> forall k :: k in counts ==> (k, counts[k]) in answer
  {
    if |counts| <= rows {
      AllListed(counts, rows, answer);
    }
  }

  ghost function KeysUpTo(answer: seq<Row>, n: nat): set<string>
    requires n <= |answer|
  {
    set i | 0 <= i < n :: answer[i].0
  }

  lemma {:induction false} KeysCount(answer: seq<Row>, n: nat)
    requires n <= |answer| && forall i, j :: 0 <= i < j < |answer| ==> answer[i].0 != answer[j].0
    ensures |KeysUpTo(answer, n)| == n
  {
    if n > 0 {
      KeysCount(answer, n - 1);
      assert KeysUpTo(answer, n) == KeysUpTo(answer, n - 1) + {answer[n - 1].0};
    }
  }

  lemma AllListed(counts: map<string, nat>, rows: nat, answer: seq<Row>)
    requires IsTop(counts, rows, answer) && |counts| <= rows
    ensures forall k :: k in counts ==> (k, counts[k]) in answer
  {
    AheadIsOrder();
    forall i, j | 0 <= i < j < |answer| ensures answer[i].0 != answer[j].0 {
      assert Ahead(answer[i], answer[j]);
    }
    KeysCount(answer, |answer|);
    var keys := KeysUpTo(answer, |answer|);
    SubsetSmaller(keys, counts.Keys);
    forall k | k in counts ensures (k, counts[k]) in answer {
      assert k in keys;
      var i :| 0 <= i < |answer| && answer[i].0 == k;
      assert answer[i] == (k, counts[k]);
    }
  }

  /** There is only one such answer, whatever order the table gives its rows up in.  */
  lemma TopUnique(counts: map<string, nat>, rows: nat, a: seq<Row>, b: seq<Row>)
    requires IsTop(counts, rows, a) && IsTop(counts, rows, b)
    ensures a == b
  {
    TopAgrees(counts, rows, a, b, |a|);
    assert a[..|a|] == a && b[..|a|] == b;
  }

  lemma {:induction false} TopAgrees(counts: map<string, nat>, rows: nat, a: seq<Row>, b: seq<Row>, n: nat)
    requires IsTop(counts, rows, a) && IsTop(counts, rows, b) && n <= |a|
    ensures a[..n] == b[..n]
  {
    if n > 0 {
      TopAgrees(counts, rows, a, b, n - 1);
      NotBehind(counts, rows, a, b, n - 1);
      NotBehind(counts, rows, b, a, n - 1);
      AheadOrders(a[n - 1], b[n - 1], a[n - 1]);
      assert a[..n] == a[..n - 1] + [a[n - 1]] && b[..n] == b[..n - 1] + [b[n - 1]];
    }
  }

  /** After a common prefix the next row of `b` is no later than the next row of `a`.  */
  lemma NotBehind(counts: map<string, nat>, rows: nat, a: seq<Row>, b: seq<Row>, n: nat)
    requires IsTop(counts, rows, a) && IsTop(counts, rows, b) && n < |a| && a[..n] == b[..n]
    ensures a[n] == b[n] || Ahead(b[n], a[n])
  {
    var k := a[n].0;
    assert a[n] == (k, counts[k]);
    if a[n] in b {
      var j :| 0 <= j < |b| && b[j] == a[n];
      if j < n {
        assert a[..n][j] == b[..n][j];
        AheadOrders(a[j], a[n], a[j]);
      }
    }
  }

  /** Sorts the rows of a table and keeps the first `rows`.  */
  method Best(counts: map<string, nat>, rows: nat) returns (answer: seq<Row>)
    ensures IsTop(counts, rows, answer)
  {
    var sorted: seq<Row> := [];
    var left := counts.Keys;
    AheadIsOrder();
    while left != {}
      invariant left <= counts.Keys && |sorted| + |left| == |counts|
      invariant InOrder(Ahead, sorted) && Listed(counts, counts.Keys - left, sorted)
      decreases |left|
    {
      var k :| k in left;
      sorted := Insert(Ahead, sorted, (k, counts[k]));
      left := left - {k};
    }
    answer := if rows < |sorted| then sorted[..rows] else sorted;
    assert forall i :: 0 <= i < |answer| ==> answer[i] in sorted;
    forall k, i | k in counts && (k, counts[k]) !in answer && 0 <= i < |answer|
      ensures Ahead(answer[i], (k, counts[k]))
    {
      assert (k, counts[k]) in sorted;
      var j :| 0 <= j < |sorted| && sorted[j] == (k, counts[k]);
      assert j >= |answer|;
    }
  }

  /** The rows of `list` are those of `counts` with a key in `keys`.  */
  ghost predicate Listed(counts: map<string, nat>, keys: set<string>, list: seq<Row>) {
    && (forall x :: x in list ==> x.0 in keys && x.0 in counts && counts[x.0] == x.1)
    && (forall k :: k in keys && k in counts ==> (k, counts[k]) in list)
  }

  // ---------------------------------------------------------------------------------------------
  // Exact counting

  /** How often each key occurs.  */
  ghost function Counted(keys: seq<string>): map<string, nat> {
    map k | k in keys :: multiset(keys)[k]
  }

  /** One more row into a table of counts.  */
  function Count(counts: map<string, nat>, key: string): map<string, nat> {
    if key in counts then counts[key := counts[key] + 1] else counts[key := 1]
  }

  lemma CountedOneMore(keys: seq<string>, i: nat)
    requires i < |keys|
    ensures Counted(keys[..i + 1]) == Count(Counted(keys[..i]), keys[i])
  {
    assert keys[..i + 1] == keys[..i] + [keys[i]];
  }

  /** The table of every key, and the top of it.  */
  method Exact(keys: seq<string>, rows: nat) returns (answer: seq<Row>)
    ensures IsTop(Counted(keys), rows, answer)
  {
    var counts: map<string, nat> := map[];
    for i := 0 to |keys|
      invariant counts == Counted(keys[..i])
    {
      CountedOneMore(keys, i);
      counts := Count(counts, keys[i]);
    }
    assert keys[..|keys|] == keys;
    answer := Best(counts, rows);
  }

  // ---------------------------------------------------------------------------------------------
  // Buckets

  predicate IsPower(n: nat) {
    n == 1 || (n > 0 && n % 2 == 0 && IsPower(n / 2))
  }

  /** Bitwise and.  */
  function And(a: nat, b: nat): (r: nat) {
    if a == 0 || b == 0 then 0 else (a % 2) * (b % 2) + 2 * And(a / 2, b / 2)
  }

  lemma RemainderIs(x: nat, n: nat, q: nat, r: nat)
    requires r < n && x == n * q + r
    ensures x % n == r
  {
    var d: int := x / n - q;
    assert n * d == r - x % n;
    assert d >= 1 ==> n * d >= n;
    assert d <= -1 ==> n * d + n <= 0;
  }

  /** Masking with one less than a power of two is the remainder.  */
  lemma {:induction false} MaskIsRemainder(h: nat, n: nat)
    requires IsPower(n)
    ensures And(h, n - 1) == h % n
    decreases n
  {
    if n > 1 {
      var m := n / 2;
      MaskIsRemainder(h / 2, m);
      Halves(h, m);
      AndHalves(h, m - 1);
    }
  }

  lemma Halves(h: nat, m: nat)
    requires 0 < m
    ensures h % (2 * m) == h % 2 + 2 * (h / 2 % m)
  {
    var q, r := h / 2 / m, h / 2 % m;
    assert h / 2 == m * q + r;
    assert 2 * m * q == 2 * (m * q);
    RemainderIs(h, 2 * m, q, 2 * r + h % 2);
  }

  lemma AndHalves(a: nat, b: nat)
    ensures And(a, 2 * b + 1) == a % 2 + 2 * And(a / 2, b)
  {
    assert (2 * b + 1) % 2 == 1 && (2 * b + 1) / 2 == b;
  }

  /** The bucket a hash falls in: masked when the number of buckets is a power of two.  */
  function Bucket(hash: nat, buckets: nat): (b: nat)
    requires 0 < buckets
    ensures b == hash % buckets
  {
    if IsPower(buckets) then
      MaskIsRemainder(hash, buckets);
      And(hash, buckets - 1)
    else hash % buckets
  }

  /** How many keys fall in a bucket.  */
  ghost function Load(keys: seq<string>, hash: string -> nat, buckets: nat, b: nat): nat
    requires 0 < buckets
  {
    if keys == [] then 0
    else Load(keys[..|keys| - 1], hash, buckets, b) + if hash(keys[|keys| - 1]) % buckets == b then 1 else 0
  }

  /** A key is no more frequent than its bucket.  */
  lemma {:induction false} KeyUnderLoad(keys: seq<string>, hash: string -> nat, buckets: nat, key: string)
    requires 0 < buckets
    ensures multiset(keys)[key] <= Load(keys, hash, buckets, hash(key) % buckets)
  {
    if keys != [] {
      KeyUnderLoad(keys[..|keys| - 1], hash, buckets, key);
      assert keys == keys[..|keys| - 1] + [keys[|keys| - 1]];
    }
  }

  const MAX_TALLY: nat := 0xffff_ffff

  /** What a bucket's counter holds: its load, up to where the counter saturates.  */
  ghost predicate Tallies(tally: seq<nat>, keys: seq<string>, hash: string -> nat) {
    forall b :: 0 <= b < |tally| ==> tally[b] == Min(MAX_TALLY, Load(keys, hash, |tally|, b))
  }

  /** The first pass.  */
  method FirstPass(keys: seq<string>, hash: string -> nat, buckets: nat) returns (tally: array<nat>)
    requires 0 < buckets
    ensures fresh(tally) && tally.Length == buckets && Tallies(tally[..], keys, hash)
  {
    tally := new nat[buckets](_ => 0);
    for i := 0 to |keys|
      invariant Tallies(tally[..], keys[..i], hash)
    {
      var at := Bucket(hash(keys[i]), buckets);
      assert tally[..][at] == tally[at];
      assert keys[..i + 1][..i] == keys[..i];
      ghost var before := tally[..];
      tally[at] := Min(MAX_TALLY, tally[at] + 1);
      assert tally[..] == before[at := tally[at]];
    }
    assert keys[..|keys|] == keys;
  }

  // ---------------------------------------------------------------------------------------------
  // The threshold

  /** How many counters hold `v` or more.  */
  function AtLeast(s: seq<nat>, v: nat): (n: nat)
    ensures n <= |s|
  {
    if s == [] then 0 else (if s[0] >= v then 1 else 0) + AtLeast(s[1..], v)
  }

  /** `t` is the greatest value, from one up, that at least `budget` counters reach; with too few counters
      in use it is one.  */
  ghost predicate IsThreshold(tally: seq<nat>, budget: nat, t: nat) {
    && 1 <= t
    && AtLeast(tally, t + 1) < budget
    && (t > 1 ==> AtLeast(tally, t) >= budget)
  }

  lemma {:induction false} AtLeastFalls(s: seq<nat>, low: nat, high: nat)
    requires low <= high
    ensures AtLeast(s, high) <= AtLeast(s, low)
  {
    if s != [] {
      AtLeastFalls(s[1..], low, high);
    }
  }

  lemma {:induction false} AtLeastJoins(a: seq<nat>, b: seq<nat>, v: nat)
    ensures AtLeast(a + b, v) == AtLeast(a, v) + AtLeast(b, v)
  {
    if a == [] {
      assert a + b == b;
    } else {
      AtLeastJoins(a[1..], b, v);
      assert (a + b)[1..] == a[1..] + b;
    }
  }

  /** Only one value is the threshold.  */
  lemma ThresholdUnique(tally: seq<nat>, budget: nat, t: nat, u: nat)
    requires IsThreshold(tally, budget, t) && IsThreshold(tally, budget, u)
    ensures t == u
  {
    if t < u {
      AtLeastFalls(tally, t + 1, u);
    } else if u < t {
      AtLeastFalls(tally, u + 1, t);
    }
  }

  predicate Descending(s: seq<nat>) {
    forall i, j :: 0 <= i < j < |s| ==> s[i] >= s[j]
  }

  /** In a descending list the counters of `v` or more come first.  */
  lemma {:induction false} DescendingSplits(s: seq<nat>, n: nat, v: nat)
    requires Descending(s) && n <= |s|
    ensures n > 0 && s[n - 1] >= v ==> AtLeast(s[..n], v) == n
    ensures n < |s| && s[n] < v ==> AtLeast(s[n..], v) == 0
    ensures AtLeast(s, v) == AtLeast(s[..n], v) + AtLeast(s[n..], v)
  {
    AllAtLeast(s[..n], v);
    NoneAtLeast(s[n..], v);
    AtLeastJoins(s[..n], s[n..], v);
    assert s == s[..n] + s[n..];
  }

  lemma {:induction false} AllAtLeast(s: seq<nat>, v: nat)
    ensures (forall i :: 0 <= i < |s| ==> s[i] >= v) ==> AtLeast(s, v) == |s|
  {
    if s != [] {
      AllAtLeast(s[1..], v);
    }
  }

  lemma {:induction false} NoneAtLeast(s: seq<nat>, v: nat)
    ensures (forall i :: 0 <= i < |s| ==> s[i] < v) ==> AtLeast(s, v) == 0
  {
    if s != [] {
      NoneAtLeast(s[1..], v);
    }
  }

  /** Largest first.  */
  method SortDown(s: seq<nat>) returns (r: seq<nat>)
    ensures Descending(r) && |r| == |s| && forall v :: AtLeast(r, v) == AtLeast(s, v)
  {
    r := [];
    for i := 0 to |s|
      invariant Descending(r) && |r| == i && forall v :: AtLeast(r, v) == AtLeast(s[..i], v)
    {
      var at := 0;
      while at < |r| && r[at] >= s[i]
        invariant 0 <= at <= |r| && forall j :: 0 <= j < at ==> r[j] >= s[i]
      {
        at := at + 1;
      }
      InsertCounts(s, i, r, at);
      r := r[..at] + [s[i]] + r[at..];
    }
    assert s[..|s|] == s;
  }

  lemma InsertCounts(s: seq<nat>, i: nat, r: seq<nat>, at: nat)
    requires i < |s| && at <= |r| && forall v :: AtLeast(r, v) == AtLeast(s[..i], v)
    ensures forall v :: AtLeast(r[..at] + [s[i]] + r[at..], v) == AtLeast(s[..i + 1], v)
  {
    forall v ensures AtLeast(r[..at] + [s[i]] + r[at..], v) == AtLeast(s[..i + 1], v) {
      AtLeastJoins(r[..at] + [s[i]], r[at..], v);
      AtLeastJoins(r[..at], [s[i]], v);
      AtLeastJoins(r[..at], r[at..], v);
      AtLeastJoins(s[..i], [s[i]], v);
      assert r == r[..at] + r[at..] && s[..i + 1] == s[..i] + [s[i]];
    }
  }

  /** What the partial sort keeps: above the floor, `heavy` counts as many counters as the ones seen do,
      as far as `budget` goes.  */
  ghost predicate Keeps(seen: seq<nat>, heavy: seq<nat>, floor: nat, budget: nat) {
    && 1 <= floor
    && (floor > 1 ==> AtLeast(heavy, floor) >= budget)
    && (forall v :: floor <= v ==> Min(budget, AtLeast(heavy, v)) == Min(budget, AtLeast(seen, v)))
  }

  lemma KeepsMore(seen: seq<nat>, heavy: seq<nat>, floor: nat, budget: nat, count: nat)
    requires Keeps(seen, heavy, floor, budget)
    ensures Keeps(seen + [count], if count >= floor then heavy + [count] else heavy, floor, budget)
  {
    var more := if count >= floor then heavy + [count] else heavy;
    forall v | floor <= v
      ensures Min(budget, AtLeast(more, v)) == Min(budget, AtLeast(seen + [count], v))
    {
      AtLeastJoins(seen, [count], v);
      AtLeastJoins(heavy, [count], v);
    }
    AtLeastJoins(heavy, [count], floor);
  }

  /** Cutting the sorted list to the budget and raising the floor to its last entry loses nothing.  */
  lemma KeepsCut(seen: seq<nat>, heavy: seq<nat>, sorted: seq<nat>, floor: nat, budget: nat)
    requires Keeps(seen, heavy, floor, budget) && 0 < budget <= |sorted|
    requires Descending(sorted) && forall v :: AtLeast(sorted, v) == AtLeast(heavy, v)
    ensures Keeps(seen, sorted[..budget], if sorted[budget - 1] < 1 then 1 else sorted[budget - 1], budget)
  {
    var last := sorted[budget - 1];
    var floor' := if last < 1 then 1 else last;
    var cut := sorted[..budget];
    if last < floor {
      BelowSorted(sorted, budget, floor);
    }
    DescendingSplits(sorted, budget, floor');
    forall v | floor' <= v
      ensures Min(budget, AtLeast(cut, v)) == Min(budget, AtLeast(seen, v))
    {
      DescendingSplits(sorted, budget, v);
    }
  }

  /** With the `budget`th entry under `v`, fewer than `budget` entries reach `v`.  */
  lemma BelowSorted(sorted: seq<nat>, budget: nat, v: nat)
    requires Descending(sorted) && 0 < budget <= |sorted| && sorted[budget - 1] < v
    ensures AtLeast(sorted, v) < budget
  {
    DescendingSplits(sorted, budget - 1, v);
  }

  /** The threshold, from a partial sort of the counters above a rising floor.  */
  method NthLargest(tally: seq<nat>, budget: nat) returns (t: nat)
    requires 0 < budget
    ensures IsThreshold(tally, budget, t)
  {
    var heavy: seq<nat> := [];
    var floor := 1;
    for i := 0 to |tally|
      invariant Keeps(tally[..i], heavy, floor, budget)
    {
      var count := tally[i];
      KeepsMore(tally[..i], heavy, floor, budget, count);
      assert tally[..i + 1] == tally[..i] + [count];
      if count >= floor {
        heavy := heavy + [count];
        if |heavy| >= budget * 4 && |heavy| > 64 {
          var sorted := SortDown(heavy);
          KeepsCut(tally[..i + 1], heavy, sorted, floor, budget);
          heavy := sorted[..budget];
          floor := if heavy[budget - 1] < 1 then 1 else heavy[budget - 1];
        }
      }
    }
    assert tally[..|tally|] == tally;
    var sorted := SortDown(heavy);
    t := if budget <= |sorted| && sorted[budget - 1] >= 1 then sorted[budget - 1] else 1;
    ThresholdFound(tally, heavy, sorted, floor, budget);
  }

  lemma ThresholdFound(tally: seq<nat>, heavy: seq<nat>, sorted: seq<nat>, floor: nat, budget: nat)
    requires 0 < budget && Keeps(tally, heavy, floor, budget)
    requires Descending(sorted) && |sorted| == |heavy| && forall v :: AtLeast(sorted, v) == AtLeast(heavy, v)
    ensures IsThreshold(tally, budget, if budget <= |sorted| && sorted[budget - 1] >= 1 then sorted[budget - 1] else 1)
  {
    hide AtLeast;
    var t := if budget <= |sorted| && sorted[budget - 1] >= 1 then sorted[budget - 1] else 1;
    if budget <= |sorted| {
      BelowSorted(sorted, budget, t + 1);
      DescendingSplits(sorted, budget, t);
      assert AtLeast(sorted, floor) < budget ==> floor == 1;
      if t < floor {
        BelowSorted(sorted, budget, floor);
      }
    }
    assert Min(budget, AtLeast(heavy, t + 1)) == Min(budget, AtLeast(tally, t + 1));
    assert Min(budget, AtLeast(heavy, t)) == Min(budget, AtLeast(tally, t));
  }

  /** The same counters in another order reach a value as often.  */
  lemma {:induction false} AtLeastPermutes(a: seq<nat>, b: seq<nat>, v: nat)
    requires multiset(a) == multiset(b)
    ensures AtLeast(a, v) == AtLeast(b, v) && |a| == |b|
  {
    hide AtLeast;
    if a == [] {
      assert |multiset(b)| == |b| && |multiset(a)| == 0;
      assert a == b;
    } else {
      var j := FirstOut(a, b);
      AtLeastPermutes(a[..0] + a[1..], b[..j] + b[j + 1..], v);
      AtLeastWithout(a, 0, v);
      AtLeastWithout(b, j, v);
    }
  }

  /** Where the first of one order is in the other, and that the rest of both agree.  */
  lemma FirstOut(a: seq<nat>, b: seq<nat>) returns (j: nat)
    requires multiset(a) == multiset(b) && a != []
    ensures j < |b| && b[j] == a[0] && multiset(a[..0] + a[1..]) == multiset(b[..j] + b[j + 1..])
  {
    TakeOut(a, 0);
    assert a[0] in multiset(b);
    j :| 0 <= j < |b| && b[j] == a[0];
    TakeOut(b, j);
    assert multiset(a[..0] + a[1..]) == multiset(a) - multiset{a[0]};
    assert multiset(b[..j] + b[j + 1..]) == multiset(b) - multiset{a[0]};
  }

  lemma TakeOut(s: seq<nat>, j: nat)
    requires j < |s|
    ensures multiset(s) == multiset(s[..j] + s[j + 1..]) + multiset{s[j]}
  {
    assert s == s[..j] + [s[j]] + s[j + 1..];
  }

  lemma AtLeastWithout(s: seq<nat>, j: nat, v: nat)
    requires j < |s|
    ensures AtLeast(s, v) == AtLeast(s[..j] + s[j + 1..], v) + AtLeast([s[j]], v)
  {
    hide AtLeast;
    AtLeastJoins(s[..j], [s[j]] + s[j + 1..], v);
    AtLeastJoins([s[j]], s[j + 1..], v);
    AtLeastJoins(s[..j], s[j + 1..], v);
    assert s == s[..j] + ([s[j]] + s[j + 1..]);
  }

  /** The threshold is what a full descending sort has in the budget's place, or one when there is no such
      place or it holds zero.  */
  lemma ThresholdIsSorted(tally: seq<nat>, sorted: seq<nat>, budget: nat, t: nat)
    requires 0 < budget && multiset(sorted) == multiset(tally) && Descending(sorted)
    requires IsThreshold(tally, budget, t)
    ensures t == if budget <= |sorted| && sorted[budget - 1] >= 1 then sorted[budget - 1] else 1
  {
    hide AtLeast, IsThreshold;
    AtLeastPermutes(sorted, tally, 0);
    forall v: nat ensures AtLeast(sorted, v) == AtLeast(tally, v) {
      AtLeastPermutes(sorted, tally, v);
    }
    ThresholdFound(tally, tally, sorted, 1, budget);
    ThresholdUnique(tally, budget, t, if budget <= |sorted| && sorted[budget - 1] >= 1 then sorted[budget - 1] else 1);
  }

  // ---------------------------------------------------------------------------------------------
  // The second pass and the certificate

  /** The counts of the keys whose bucket reaches the threshold.  */
  ghost function Candidates(keys: seq<string>, hash: string -> nat, tally: seq<nat>, t: nat): map<string, nat>
    requires 0 < |tally|
  {
    map k | k in keys && tally[hash(k) % |tally|] >= t :: multiset(keys)[k]
  }

  lemma NoCandidates(hash: string -> nat, tally: seq<nat>, t: nat)
    requires 0 < |tally|
    ensures Candidates([], hash, tally, t) == map[]
  {}

  lemma CandidatesOneMore(keys: seq<string>, i: nat, hash: string -> nat, tally: seq<nat>, t: nat)
    requires i < |keys| && 0 < |tally|
    ensures Candidates(keys[..i + 1], hash, tally, t)
         == if tally[hash(keys[i]) % |tally|] >= t then Count(Candidates(keys[..i], hash, tally, t), keys[i])
            else Candidates(keys[..i], hash, tally, t)
  {
    assert keys[..i + 1] == keys[..i] + [keys[i]];
  }

  /** Every key of the file is a candidate.  */
  ghost predicate NothingSkipped(keys: seq<string>, hash: string -> nat, tally: seq<nat>, t: nat)
    requires 0 < |tally|
  {
    forall k :: k in keys ==> tally[hash(k) % |tally|] >= t
  }

  /** The last row's count, or zero for no rows.  */
  function LastCount(answer: seq<Row>): nat {
    if answer == [] then 0 else answer[|answer| - 1].1
  }

  /** Both passes.  A certified answer is the exact one precisely when there are candidates for every row
      asked for or no key was skipped.  */
  method Buckets(keys: seq<string>, hash: string -> nat, buckets: nat, budget: nat, rows: nat)
    returns (answer: seq<Row>, certified: bool, tally: seq<nat>, threshold: nat)
    requires 0 < buckets && 0 < budget
    ensures |tally| == buckets && Tallies(tally, keys, hash) && IsThreshold(tally, budget, threshold)
    ensures IsTop(Candidates(keys, hash, tally, threshold), rows, answer)
    ensures certified <==> threshold <= LastCount(answer)
    ensures certified ==>
              (IsTop(Counted(keys), rows, answer) <==>
               rows <= |Candidates(keys, hash, tally, threshold)| || NothingSkipped(keys, hash, tally, threshold))
  {
    hide IsTop, Tallies, IsThreshold, NothingSkipped, Candidates, Counted, Count;
    var counters := FirstPass(keys, hash, buckets);
    tally := counters[..];
    var t := NthLargest(tally, budget);
    threshold := t;
    NoCandidates(hash, tally, t);
    assert keys[..0] == [];
    var counts: map<string, nat> := map[];
    for i := 0 to |keys|
      invariant counts == Candidates(keys[..i], hash, tally, t) && counters[..] == tally
    {
      CandidatesOneMore(keys, i, hash, tally, t);
      var at := Bucket(hash(keys[i]), buckets);
      assert tally[at] == counters[at];
      if counters[at] >= t {
        counts := Count(counts, keys[i]);
      }
    }
    assert keys[..|keys|] == keys;
    answer := Best(counts, rows);
    certified := t <= LastCount(answer);
    if certified {
      Certificate(keys, hash, tally, budget, t, rows, answer);
    }
  }

  /** A skipped key is rarer than the threshold: its counter did not saturate, and it is no more frequent
      than its bucket.  */
  lemma SkippedIsRare(keys: seq<string>, hash: string -> nat, tally: seq<nat>, t: nat, key: string)
    requires 0 < |tally| && Tallies(tally, keys, hash) && tally[hash(key) % |tally|] < t <= MAX_TALLY
    ensures multiset(keys)[key] < t
  {
    KeyUnderLoad(keys, hash, |tally|, key);
  }

  /** The threshold is a value some counter holds, or one.  */
  lemma {:induction false} ThresholdHeld(tally: seq<nat>, budget: nat, t: nat)
    requires 0 < budget && IsThreshold(tally, budget, t)
    requires forall b :: 0 <= b < |tally| ==> tally[b] <= MAX_TALLY
    ensures t <= MAX_TALLY
  {
    if t > MAX_TALLY {
      NoneAtLeast(tally, t);
    }
  }

  lemma Certificate(keys: seq<string>, hash: string -> nat, tally: seq<nat>, budget: nat, t: nat, rows: nat, answer: seq<Row>)
    requires 0 < |tally| && 0 < budget && Tallies(tally, keys, hash) && IsThreshold(tally, budget, t)
    requires IsTop(Candidates(keys, hash, tally, t), rows, answer)
    requires t <= LastCount(answer)
    ensures IsTop(Counted(keys), rows, answer) <==>
            rows <= |Candidates(keys, hash, tally, t)| || NothingSkipped(keys, hash, tally, t)
  {
    hide IsTop;
    if NothingSkipped(keys, hash, tally, t) {
      assert Candidates(keys, hash, tally, t) == Counted(keys);
    } else {
      SomeSkipped(keys, hash, tally, budget, t, rows, answer);
    }
  }

  /** With a key skipped, a certified answer is exact just when the candidates fill it.  */
  lemma SomeSkipped(keys: seq<string>, hash: string -> nat, tally: seq<nat>, budget: nat, t: nat, rows: nat, answer: seq<Row>)
    requires 0 < |tally| && 0 < budget && Tallies(tally, keys, hash) && IsThreshold(tally, budget, t)
    requires IsTop(Candidates(keys, hash, tally, t), rows, answer)
    requires t <= LastCount(answer) && !NothingSkipped(keys, hash, tally, t)
    ensures IsTop(Counted(keys), rows, answer) <==> rows <= |Candidates(keys, hash, tally, t)|
  {
    hide Load, AtLeast, Before;
    var all, some := Counted(keys), Candidates(keys, hash, tally, t);
    FewerCandidates(keys, hash, tally, t);
    ThresholdHeld(tally, budget, t);
    forall k, i | k in all && (k, all[k]) !in answer && 0 <= i < |answer|
      ensures Ahead(answer[i], (k, all[k]))
    {
      if k !in some {
        SkippedIsRare(keys, hash, tally, t, k);
        assert i < |answer| - 1 ==> Ahead(answer[i], answer[|answer| - 1]);
      }
    }
  }

  lemma FewerCandidates(keys: seq<string>, hash: string -> nat, tally: seq<nat>, t: nat)
    requires 0 < |tally| && !NothingSkipped(keys, hash, tally, t)
    ensures |Candidates(keys, hash, tally, t)| < |Counted(keys)|
  {
    var k :| k in keys && tally[hash(k) % |tally|] < t;
    assert k in Counted(keys).Keys && k !in Candidates(keys, hash, tally, t).Keys;
    SubsetSmaller(Candidates(keys, hash, tally, t).Keys, Counted(keys).Keys);
  }

  /** Certified is not yet exact: two keys, a budget of one bucket and room for two rows.  */
  lemma CertifiedButShort(hash: string -> nat)
    requires hash("a") == 0 && hash("b") == 1
    ensures var keys, tally, answer := ["a", "a", "b"], [2, 1], [("a", 2)];
            && Tallies(tally, keys, hash) && IsThreshold(tally, 1, 2)
            && IsTop(Candidates(keys, hash, tally, 2), 2, answer)
            && 2 <= LastCount(answer)
            && !IsTop(Counted(keys), 2, answer)
  {
    hide Load, AtLeast, Before, IsTop, Tallies, IsThreshold;
    var keys: seq<string>, tally: seq<nat>, answer: seq<Row> := ["a", "a", "b"], [2, 1], [("a", 2)];
    ShortTally(hash);
    ShortThreshold();
    ShortTop();
    assert Candidates(keys, hash, tally, 2) == map["a" := 2];
    assert keys[2] in keys;
    Certificate(keys, hash, tally, 1, 2, 2, answer);
  }

  lemma ShortTally(hash: string -> nat)
    requires hash("a") == 0 && hash("b") == 1
    ensures Tallies([2, 1], ["a", "a", "b"], hash)
  {
    var keys := ["a", "a", "b"];
    assert keys[..2] == ["a", "a"] && ["a", "a"][..1] == ["a"] && ["a"][..0] == [];
    forall b | 0 <= b < 2 ensures [2, 1][b] == Min(MAX_TALLY, Load(keys, hash, 2, b)) {
      assert Load(["a"], hash, 2, b) == if b == 0 then 1 else 0;
      assert Load(["a", "a"], hash, 2, b) == if b == 0 then 2 else 0;
    }
  }

  lemma ShortThreshold()
    ensures IsThreshold([2, 1], 1, 2)
  {
    assert [2, 1][1..] == [1] && [1][1..] == [];
    assert AtLeast([1], 2) == 0 && AtLeast([1], 3) == 0;
  }

  lemma ShortTop()
    ensures IsTop(map["a" := 2], 2, [("a", 2)])
  {}
}
