/** The statement generator: arenas whose nodes hold indices of other nodes, built out of a stream of
    choices so that no index can point nowhere.  */
module Builder {

  datatype Arena =
    | Strings | Parts | NameLists | Exprs | ExprLists | CaseArms | Rows | Targets | OrderItems
    | Sources | SourceLists | Selects | Queries | ColumnDefs | CreateTables | Inserts | DropTables

  /** A field that refers to other cells: `NONE`, an index, or a slice of a backing vector.  */
  datatype Ref =
    | Absent
    | One(arena: Arena, index: nat)
    | Run(arena: Arena, start: nat, len: nat)

  /** What a field is declared to be.  */
  datatype Sort = Needs(arena: Arena) | Maybe(arena: Arena) | List(arena: Arena) | Grid

  /** The kinds of node the generator makes.  A query is named for its body.  */
  datatype Form =
    | Part | NameList | ListedExpr | CaseArm | ValuesRow | Target | OrderItem | ListedSource
    | Star | Column | Literal | Parameter | Unary | Binary | Call | Cast | Case | Between | In | Items | Subquery
    | Table | SubquerySource | FunctionSource | ValuesSource | Join
    | Select | SelectQuery | SetOpQuery | ValuesQuery
    | ColumnDef | CreateTable | Insert | DropTable

  /** A cell of an arena: interned text, or a node with its references in field order.  Flags and
      operators without a name are not kept: they refer to nothing.  */
  datatype Cell = Text(text: string) | Node(form: Form, refs: seq<Ref>)

  type Ast = map<Arena, seq<Cell>>

  function Cells(ast: Ast, arena: Arena): seq<Cell> {
    if arena in ast then ast[arena] else []
  }

  /** The arena a kind of node lives in.  */
  function Home(form: Form): Arena {
    match form
    case Part => Parts
    case NameList => NameLists
    case ListedExpr => ExprLists
    case CaseArm => CaseArms
    case ValuesRow => Rows
    case Target => Targets
    case OrderItem => OrderItems
    case ListedSource => SourceLists
    case Table => Sources
    case SubquerySource => Sources
    case FunctionSource => Sources
    case ValuesSource => Sources
    case Join => Sources
    case Select => Selects
    case SelectQuery => Queries
    case SetOpQuery => Queries
    case ValuesQuery => Queries
    case ColumnDef => ColumnDefs
    case CreateTable => CreateTables
    case Insert => Inserts
    case DropTable => DropTables
    case _ => Exprs
  }

  /** The fields of a kind of node that refer to others.  */
  function Fields(form: Form): seq<Sort> {
    match form
    case Part => [Needs(Strings)]
    case NameList => [List(Parts)]
    case ListedExpr => [Needs(Exprs)]
    case CaseArm => [Needs(Exprs), Needs(Exprs)]
    case ValuesRow => [List(ExprLists)]
    case Target => [Needs(Exprs), Maybe(Strings)]
    case OrderItem => [Needs(Exprs)]
    case ListedSource => [Needs(Sources)]
    case Star => [List(Parts), List(Targets)]
    case Column => [List(Parts)]
    case Literal => [Maybe(Strings)]
    case Parameter => [Needs(Strings)]
    case Unary => [Needs(Exprs)]
    case Binary => [Maybe(Strings), Needs(Exprs), Needs(Exprs)]
    case Call => [List(Parts), List(ExprLists)]
    case Cast => [Needs(Exprs), Needs(Strings)]
    case Case => [Maybe(Exprs), List(CaseArms), Maybe(Exprs)]
    case Between => [Needs(Exprs), Needs(Exprs), Needs(Exprs)]
    case In => [Needs(Exprs), List(ExprLists)]
    case Items => [List(ExprLists)]
    case Subquery => [Needs(Queries)]
    case Table => [List(Parts), Maybe(Strings), List(Parts)]
    case SubquerySource => [Needs(Queries), Maybe(Strings), List(Parts)]
    case FunctionSource => [List(Parts), List(Targets), Maybe(Strings), List(Parts)]
    case ValuesSource => [Grid, Maybe(Strings), List(Parts)]
    case Join => [Needs(Sources), Needs(Sources), Maybe(Exprs), List(Parts)]
    case Select => [List(ExprLists), List(Targets), List(SourceLists), Maybe(Exprs), List(ExprLists), Maybe(Exprs)]
    case SelectQuery => [Needs(Selects), List(OrderItems), Maybe(Exprs), Maybe(Exprs)]
    case SetOpQuery => [Needs(Queries), Needs(Queries), List(OrderItems), Maybe(Exprs), Maybe(Exprs)]
    case ValuesQuery => [Grid, List(OrderItems), Maybe(Exprs), Maybe(Exprs)]
    case ColumnDef => [Needs(Strings), Maybe(Strings)]
    case CreateTable => [List(Parts), List(ColumnDefs), Maybe(Queries)]
    case Insert => [List(Parts), List(Parts), Needs(Queries)]
    case DropTable => [List(NameLists)]
  }

  // ---------------------------------------------------------------------------------------------
  // Well-built arenas

  predicate Fits(sort: Sort, r: Ref) {
    match sort
    case Needs(arena) => r.One? && r.arena == arena
    case Maybe(arena) => r.Absent? || (r.One? && r.arena == arena)
    case List(arena) => r.Run? && r.arena == arena
    case Grid => r.Run? && r.arena == Rows
  }

  /** Nothing `r` refers to is missing.  */
  predicate Inside(ast: Ast, r: Ref) {
    match r
    case Absent => true
    case One(arena, index) => index < |Cells(ast, arena)|
    case Run(arena, start, len) => start + len <= |Cells(ast, arena)|
  }

  /** `r` refers to the cell at `index` of `arena`.  */
  predicate Refers(r: Ref, arena: Arena, index: nat) {
    r == One(arena, index) || (r.Run? && r.arena == arena && r.start <= index < r.start + r.len)
  }

  /** The rows of a `VALUES`: one to three of them, and all of one width from one to three.  */
  predicate Even(rows: seq<Cell>) {
    1 <= |rows| <= 3 && exists width :: 1 <= width <= 3 && SameWidth(rows, width)
  }

  predicate SameWidth(rows: seq<Cell>, width: nat) {
    forall i :: 0 <= i < |rows| ==>
      rows[i].Node? && |rows[i].refs| == 1 && rows[i].refs[0].Run? && rows[i].refs[0].len == width
  }

  predicate Ok(ast: Ast, sort: Sort, r: Ref) {
    Fits(sort, r) && Inside(ast, r) && (sort.Grid? ==> Even(Cells(ast, Rows)[r.start..r.start + r.len]))
  }

  /** A cell that may be added to an arena: its fields are what they are declared to be, and refer to what
      is already there.  */
  predicate Fit(ast: Ast, arena: Arena, cell: Cell) {
    match cell
    case Text(_) => arena == Strings
    case Node(form, refs) =>
      && arena == Home(form) && |refs| == |Fields(form)|
      && forall k :: 0 <= k < |refs| ==> Ok(ast, Fields(form)[k], refs[k])
  }

  /** When each cell was built.  */
  type Births = (Arena, nat) -> nat

  /** Everything a cell refers to was built before `time`.  */
  ghost predicate Older(born: Births, cell: Cell, time: nat) {
    cell.Node? ==> forall k, b, j :: 0 <= k < |cell.refs| && Refers(cell.refs[k], b, j) ==> born(b, j) < time
  }

  ghost predicate CellBuilt(ast: Ast, born: Births, clock: nat, a: Arena, i: nat)
    requires i < |Cells(ast, a)|
  {
    Fit(ast, a, Cells(ast, a)[i]) && born(a, i) < clock && Older(born, Cells(ast, a)[i], born(a, i))
  }

  /** Every field refers to cells that exist and were built before the cell it is in.  */
  ghost predicate WellBuilt(ast: Ast, born: Births, clock: nat) {
    forall a, i :: 0 <= i < |Cells(ast, a)| ==> CellBuilt(ast, born, clock, a, i)
  }

  /** No text is interned twice.  */
  ghost predicate Distinct(strings: seq<Cell>) {
    forall i, j :: 0 <= i < j < |strings| ==> strings[i] != strings[j]
  }

  /** Nothing built is changed or moved.  */
  ghost predicate Grows(before: Ast, after: Ast) {
    forall arena :: Cells(before, arena) <= Cells(after, arena)
  }

  lemma FitGrows(before: Ast, after: Ast, arena: Arena, cell: Cell)
    requires Grows(before, after) && Fit(before, arena, cell)
    ensures Fit(after, arena, cell)
  {
    if cell.Node? {
      forall k | 0 <= k < |cell.refs| ensures Ok(after, Fields(cell.form)[k], cell.refs[k]) {
        StillOk(before, after, Fields(cell.form)[k], cell.refs[k]);
      }
    }
  }

  lemma StillOk(before: Ast, after: Ast, sort: Sort, r: Ref)
    requires Grows(before, after) && Ok(before, sort, r)
    ensures Ok(after, sort, r)
  {
    if sort.Grid? {
      assert Cells(before, Rows) <= Cells(after, Rows);
      assert Cells(after, Rows)[r.start..r.start + r.len] == Cells(before, Rows)[r.start..r.start + r.len];
    }
  }

  /** One state of the arenas comes after another: whatever was built, referred to or fit before still is,
      and whatever came before the one comes before the other.  */
  ghost predicate Later(before: Ast, after: Ast) {
    && Grows(before, after)
    && (forall e: Ast :: Grows(e, before) ==> Grows(e, after))
    && (forall sort, r :: Ok(before, sort, r) ==> Ok(after, sort, r))
    && (forall arena, cell :: Fit(before, arena, cell) ==> Fit(after, arena, cell))
  }

  lemma GrowsIsLater(before: Ast, after: Ast)
    requires Grows(before, after)
    ensures Later(before, after)
  {
    forall e: Ast | Grows(e, before) ensures Grows(e, after) {
      forall arena ensures Cells(e, arena) <= Cells(after, arena) {
        assert Cells(e, arena) <= Cells(before, arena) <= Cells(after, arena);
      }
    }
    forall sort, r | Ok(before, sort, r) ensures Ok(after, sort, r) {
      StillOk(before, after, sort, r);
    }
    forall arena, cell | Fit(before, arena, cell) ensures Fit(after, arena, cell) {
      FitGrows(before, after, arena, cell);
    }
  }

  lemma LaterAlready(ast: Ast)
    ensures Later(ast, ast)
  {
    GrowsIsLater(ast, ast);
  }

  // A node whose fields are in order is fit for its arena.

  lemma OneFits(ast: Ast, form: Form, a: Ref)
    requires |Fields(form)| == 1 && Ok(ast, Fields(form)[0], a)
    ensures Fit(ast, Home(form), Node(form, [a]))
  {}

  lemma TwoFit(ast: Ast, form: Form, a: Ref, b: Ref)
    requires |Fields(form)| == 2 && Ok(ast, Fields(form)[0], a) && Ok(ast, Fields(form)[1], b)
    ensures Fit(ast, Home(form), Node(form, [a, b]))
  {}

  lemma ThreeFit(ast: Ast, form: Form, a: Ref, b: Ref, c: Ref)
    requires |Fields(form)| == 3
    requires Ok(ast, Fields(form)[0], a) && Ok(ast, Fields(form)[1], b) && Ok(ast, Fields(form)[2], c)
    ensures Fit(ast, Home(form), Node(form, [a, b, c]))
  {}

  lemma FourFit(ast: Ast, form: Form, a: Ref, b: Ref, c: Ref, d: Ref)
    requires |Fields(form)| == 4
    requires Ok(ast, Fields(form)[0], a) && Ok(ast, Fields(form)[1], b)
    requires Ok(ast, Fields(form)[2], c) && Ok(ast, Fields(form)[3], d)
    ensures Fit(ast, Home(form), Node(form, [a, b, c, d]))
  {}

  lemma EvenIsGrid(ast: Ast, r: Ref)
    requires Ok(ast, List(Rows), r) && Even(Cells(ast, Rows)[r.start..r.start + r.len])
    ensures Ok(ast, Grid, r)
  {}

  lemma EmptyIsOk(ast: Ast, arena: Arena)
    ensures Ok(ast, List(arena), Run(arena, 0, 0)) && Ok(ast, Maybe(arena), Absent)
  {}

  /** The birth times after a run of cells is added.  */
  ghost function Reborn(born: Births, arena: Arena, from: nat, clock: nat): Births {
    (a: Arena, i: nat) => if a == arena && i >= from then clock else born(a, i)
  }

  /** A fit cell refers only to cells with a birth time.  */
  lemma FitIsOlder(ast: Ast, born: Births, clock: nat, arena: Arena, cell: Cell)
    requires WellBuilt(ast, born, clock) && Fit(ast, arena, cell)
    ensures Older(born, cell, clock)
  {
    if cell.Node? {
      forall k, b, j: nat | 0 <= k < |cell.refs| && Refers(cell.refs[k], b, j) ensures born(b, j) < clock {
        assert Inside(ast, cell.refs[k]);
        assert CellBuilt(ast, born, clock, b, j);
      }
    }
  }

  /** Later births do not make an old cell's references younger.  */
  lemma OlderStays(ast: Ast, born: Births, arena: Arena, clock: nat, home: Arena, cell: Cell, time: nat)
    requires Fit(ast, home, cell) && Older(born, cell, time)
    ensures Older(Reborn(born, arena, |Cells(ast, arena)|, clock), cell, time)
  {
    if cell.Node? {
      var born' := Reborn(born, arena, |Cells(ast, arena)|, clock);
      forall k, b, j: nat | 0 <= k < |cell.refs| && Refers(cell.refs[k], b, j) ensures born'(b, j) < time {
        assert Inside(ast, cell.refs[k]);
      }
    }
  }

  /** Adding a run of fit cells keeps the arenas well built.  */
  lemma AddKeeps(ast: Ast, born: Births, clock: nat, arena: Arena, items: seq<Cell>)
    requires WellBuilt(ast, born, clock) && forall i :: 0 <= i < |items| ==> Fit(ast, arena, items[i])
    ensures var after := ast[arena := Cells(ast, arena) + items];
            Grows(ast, after) && WellBuilt(after, Reborn(born, arena, |Cells(ast, arena)|, clock), clock + 1)
  {
    hide Fit, Older;
    var after := ast[arena := Cells(ast, arena) + items];
    var from := |Cells(ast, arena)|;
    var born' := Reborn(born, arena, from, clock);
    assert Grows(ast, after);
    var later := clock + 1;
    forall a, i | 0 <= i < |Cells(after, a)|
      ensures CellBuilt(after, born', later, a, i)
    {
      var cell := Cells(after, a)[i];
      if a == arena && i >= from {
        assert cell == items[i - from];
        FitIsOlder(ast, born, clock, a, cell);
        OlderStays(ast, born, arena, clock, a, cell, clock);
      } else {
        assert cell == Cells(ast, a)[i];
        assert CellBuilt(ast, born, clock, a, i);
        OlderStays(ast, born, arena, clock, a, cell, born(a, i));
      }
      FitGrows(ast, after, a, cell);
    }
  }

  // ---------------------------------------------------------------------------------------------
  // Walking

  /** A walk over everything a cell refers to, and so on down, ends: it is a function.  It counts the cells
      the walk visits.  */
  ghost function Walk(ast: Ast, born: Births, clock: nat, arena: Arena, index: nat): nat
    requires WellBuilt(ast, born, clock) && index < |Cells(ast, arena)|
    decreases born(arena, index), 2, 0
  {
    var cell := Cells(ast, arena)[index];
    if cell.Text? then 1 else 1 + WalkFields(ast, born, clock, arena, index, 0)
  }

  ghost function WalkFields(ast: Ast, born: Births, clock: nat, arena: Arena, index: nat, k: nat): nat
    requires WellBuilt(ast, born, clock) && index < |Cells(ast, arena)| && Cells(ast, arena)[index].Node?
    requires k <= |Cells(ast, arena)[index].refs|
    decreases born(arena, index), 1, |Cells(ast, arena)[index].refs| - k
  {
    var refs := Cells(ast, arena)[index].refs;
    if k == |refs| then 0
    else
      assert CellBuilt(ast, born, clock, arena, index);
      (match refs[k]
       case Absent => 0
       case One(a, i) =>
         assert Refers(refs[k], a, i);
         Walk(ast, born, clock, a, i)
       case Run(a, start, len) =>
         WalkRun(ast, born, clock, a, start, len, born(arena, index)))
      + WalkFields(ast, born, clock, arena, index, k + 1)
  }

  ghost function WalkRun(ast: Ast, born: Births, clock: nat, arena: Arena, start: nat, len: nat, before: nat): nat
    requires WellBuilt(ast, born, clock) && start + len <= |Cells(ast, arena)|
    requires forall i :: start <= i < start + len ==> born(arena, i) < before
    decreases before, 0, len
  {
    if len == 0 then 0
    else Walk(ast, born, clock, arena, start) + WalkRun(ast, born, clock, arena, start + 1, len - 1, before)
  }

  // ---------------------------------------------------------------------------------------------
  // The builder

  const NAMES: seq<string> := ["hits", "visits", "UserID", "url", "counter", "duration", "t", "x", "main", "nosuch"]
  const FUNCTIONS: seq<string> :=
    ["count", "sum", "min", "max", "avg", "upper", "length", "abs", "coalesce", "nullif", "date_part", "nosuch"]
  const TYPES: seq<string> :=
    ["INTEGER", "BIGINT", "VARCHAR", "DOUBLE", "BOOLEAN", "DECIMAL(10,2)", "DATE", "TIMESTAMP", "BLOB", "INTEGER[]", "not a type"]
  const NUMBERS: seq<string> :=
    ["0", "1", "-1", "2147483647", "9223372036854775807", "999999999999999999999999999999", "1e400", "-0.0", "0.1", "1.5e-320"]
  const TEXTS: seq<string> := ["", "a", "it's", "one\ntwo", "\U{0000}", "gr\U{00FC}\U{00DF}", "%_"]

  const DEPTH: nat := 3
  const BUDGET: nat := 300

  function Minus(a: nat, b: nat): nat {
    if a < b then 0 else a - b
  }

  // ---------------------------------------------------------------------------------------------
  // What the budget bounds

  /** The budget left, the expressions built, and the nodes of all kinds built.  */
  datatype Meter = Meter(budget: nat, built: nat, nodes: nat)

  /** The arenas of nodes, as against the vectors that back runs.  */
  const NODES: set<Arena> := {Exprs, Sources, Selects, Queries, CreateTables, Inserts, DropTables}

  function NodeCount(ast: Ast): nat {
    |Cells(ast, Exprs)| + |Cells(ast, Sources)| + |Cells(ast, Selects)| + |Cells(ast, Queries)|
    + |Cells(ast, CreateTables)| + |Cells(ast, Inserts)| + |Cells(ast, DropTables)|
  }

  ghost predicate Counted(ast: Ast, built: nat, nodes: nat) {
    built == |Cells(ast, Exprs)| && nodes == NodeCount(ast)
  }

  lemma AddCounts(ast: Ast, arena: Arena, items: seq<Cell>, built: nat, nodes: nat)
    requires Counted(ast, built, nodes)
    ensures Counted(ast[arena := Cells(ast, arena) + items],
                    if arena == Exprs then built + |items| else built,
                    if arena in NODES then nodes + |items| else nodes)
  {
    var after := ast[arena := Cells(ast, arena) + items];
    forall other: Arena ensures |Cells(after, other)| == |Cells(ast, other)| + if other == arena then |items| else 0 {}
  }

  /** Between two readings no expression goes unpaid, except after the budget is gone: then at most `spent` do
      when it was gone to begin with, and at most `short` when it went on the way.  */
  ghost predicate Spends(a: Meter, b: Meter, spent: nat, short: nat) {
    && b.budget <= a.budget && a.built <= b.built
    && b.built + b.budget <= a.built + a.budget + (if a.budget == 0 then spent else if b.budget > 0 then 0 else short)
  }

  /** How many nodes may come with one expression.  */
  const SHARE: nat := 34

  /** Nodes come with expressions, give or take `room`.  */
  ghost predicate Fills(a: Meter, b: Meter, room: int) {
    b.nodes <= a.nodes + SHARE * (b.built - a.built) + room
  }

  /** How many sources can nest in a source without any expression.  */
  function Room(depth: nat): (room: nat) {
    if depth == 0 then 1 else 1 + 2 * Room(depth - 1)
  }

  lemma RoomAtDepth(depth: nat)
    requires depth <= DEPTH
    ensures Room(depth) <= 15
  {
    assert Room(2) == 1 + 2 * Room(1);
    assert Room(3) == 1 + 2 * Room(2);
  }

  class Builder {
    var ast: Ast
    var budget: nat
    var choices: seq<nat>
    ghost var born: Births
    ghost var clock: nat
    ghost var built: nat
    ghost var nodes: nat

    ghost predicate Valid()
      reads this
    {
      WellBuilt(ast, born, clock) && Distinct(Cells(ast, Strings)) && Counted(ast, built, nodes)
    }

    ghost function Now(): Meter
      reads this
    {
      Meter(budget, built, nodes)
    }

    /** A step that built `r`: nothing built before has changed, and `r` is what its field wants.  */
    ghost predicate Built(before: Ast, sort: Sort, r: Ref)
      reads this
    {
      Valid() && Later(before, ast) && Ok(ast, sort, r)
    }

    constructor (choices: seq<nat>)
      ensures Valid() && ast == map[] && this.choices == choices && Now() == Meter(BUDGET, 0, 0)
    {
      ast := map[];
      budget := BUDGET;
      this.choices := choices;
      born := (_, _) => 0;
      clock, built, nodes := 0, 0, 0;
    }

    /** One of so many alternatives, the first once the choices run out.  */
    method Pick(alternatives: nat) returns (choice: nat)
      requires 0 < alternatives
      modifies `choices
      ensures choice < alternatives
    {
      if choices == [] {
        return 0;
      }
      choice := choices[0] % alternatives;
      choices := choices[1..];
    }

    /** A count between two bounds, the low one once the budget is spent.  */
    method Count(low: nat, high: nat) returns (count: nat)
      requires low <= high
      modifies `choices
      ensures low <= count <= high && (budget == 0 ==> count == low)
    {
      if budget == 0 {
        return low;
      }
      count := Pick(high - low + 1);
      count := low + count;
    }

    method Chance(odds: nat) returns (yes: bool)
      requires 0 < odds
      modifies `choices
    {
      var choice := Pick(odds);
      yes := choice == 0;
    }

    /** Puts a run at the end of a backing vector.  */
    method Extend(arena: Arena, items: seq<Cell>) returns (r: Ref)
      requires Valid() && arena != Strings && arena !in NODES && forall i :: 0 <= i < |items| ==> Fit(ast, arena, items[i])
      modifies `ast, `born, `clock
      ensures Built(old(ast), List(arena), r)
      ensures r == Run(arena, |Cells(old(ast), arena)|, |items|)
      ensures Cells(ast, arena)[r.start..r.start + r.len] == items
    {
      AddKeeps(ast, born, clock, arena, items);
      AddCounts(ast, arena, items, built, nodes);
      GrowsIsLater(ast, ast[arena := Cells(ast, arena) + items]);
      r := Run(arena, |Cells(ast, arena)|, |items|);
      born := Reborn(born, arena, |Cells(ast, arena)|, clock);
      ast := ast[arena := Cells(ast, arena) + items];
      clock := clock + 1;
    }

    /** Puts a node at the end of its arena.  */
    method Push(cell: Cell) returns (r: Ref)
      requires Valid() && cell.Node? && Home(cell.form) in NODES && Fit(ast, Home(cell.form), cell)
      modifies `ast, `born, `clock, `built, `nodes
      ensures Built(old(ast), Needs(Home(cell.form)), r)
      ensures nodes == old(nodes) + 1 && built == old(built) + (if Home(cell.form) == Exprs then 1 else 0)
    {
      hide WellBuilt, Counted, Fit, Grows, Later;
      var arena := Home(cell.form);
      AddKeeps(ast, born, clock, arena, [cell]);
      AddCounts(ast, arena, [cell], built, nodes);
      GrowsIsLater(ast, ast[arena := Cells(ast, arena) + [cell]]);
      r := One(arena, |Cells(ast, arena)|);
      born := Reborn(born, arena, |Cells(ast, arena)|, clock);
      ast := ast[arena := Cells(ast, arena) + [cell]];
      clock, nodes := clock + 1, nodes + 1;
      built := if arena == Exprs then built + 1 else built;
    }

    /** Interns a text, reusing its slot when it is already there.  */
    method Intern(text: string) returns (r: Ref)
      requires Valid()
      modifies `ast, `born, `clock
      ensures Built(old(ast), Needs(Strings), r) && Cells(ast, Strings)[r.index] == Text(text)
    {
      LaterAlready(ast);
      var strings := Cells(ast, Strings);
      var found := 0;
      while found < |strings|
        invariant found <= |strings| && forall i :: 0 <= i < found ==> strings[i] != Text(text)
      {
        if strings[found] == Text(text) {
          return One(Strings, found);
        }
        found := found + 1;
      }
      AddKeeps(ast, born, clock, Strings, [Text(text)]);
      AddCounts(ast, Strings, [Text(text)], built, nodes);
      GrowsIsLater(ast, ast[Strings := strings + [Text(text)]]);
      r := One(Strings, |strings|);
      born := Reborn(born, Strings, |strings|, clock);
      ast := ast[Strings := strings + [Text(text)]];
      clock := clock + 1;
    }

    method Choose(pool: seq<string>) returns (r: Ref)
      requires Valid() && pool != []
      modifies `ast, `born, `clock, `choices
      ensures Built(old(ast), Needs(Strings), r)
    {
      var choice := Pick(|pool|);
      r := Intern(pool[choice]);
    }

    method OptionalString() returns (r: Ref)
      requires Valid()
      modifies `ast, `born, `clock, `choices
      ensures Built(old(ast), Maybe(Strings), r)
    {
      LaterAlready(ast);
      var yes := Chance(3);
      if yes {
        r := Choose(NAMES);
      } else {
        r := Absent;
      }
    }

    /** A run of names.  */
    method Names(low: nat, high: nat) returns (r: Ref)
      requires Valid() && low <= high
      modifies `ast, `born, `clock, `choices
      ensures Built(old(ast), List(Parts), r) && low <= r.len
    {
      hide WellBuilt, Distinct, Grows, Ok, Fit, Counted;
      LaterAlready(ast);
      var count := Count(low, high);
      var parts: seq<Cell> := [];
      for n := 0 to count
        invariant Valid() && Later(old(ast), ast) && |parts| == n
        invariant forall i :: 0 <= i < |parts| ==> Fit(ast, Parts, parts[i])
      {
        var s := Choose(NAMES);
        OneFits(ast, Part, s);
        parts := parts + [Node(Part, [s])];
      }
      r := Extend(Parts, parts);
    }

    method FunctionName() returns (r: Ref)
      requires Valid()
      modifies `ast, `born, `clock, `choices
      ensures Built(old(ast), List(Parts), r)
    {
      var name := Choose(FUNCTIONS);
      OneFits(ast, Part, name);
      r := Extend(Parts, [Node(Part, [name])]);
    }

    method NameRuns() returns (r: Ref)
      requires Valid()
      modifies `ast, `born, `clock, `choices
      ensures Built(old(ast), List(NameLists), r)
    {
      hide WellBuilt, Distinct, Grows, Ok, Fit, Counted;
      LaterAlready(ast);
      var count := Count(1, 2);
      var names: seq<Cell> := [];
      for n := 0 to count
        invariant Valid() && Later(old(ast), ast)
        invariant forall i :: 0 <= i < |names| ==> Fit(ast, NameLists, names[i])
      {
        var name := Names(1, 3);
        OneFits(ast, NameList, name);
        names := names + [Node(NameList, [name])];
      }
      r := Extend(NameLists, names);
    }

    method MaybeType() returns (r: Ref)
      requires Valid()
      modifies `ast, `born, `clock, `choices
      ensures Built(old(ast), Maybe(Strings), r)
    {
      LaterAlready(ast);
      var untyped := Chance(8);
      r := Absent;
      if !untyped {
        r := Choose(TYPES);
      }
    }

    method ColumnRun() returns (r: Ref)
      requires Valid()
      modifies `ast, `born, `clock, `choices
      ensures Built(old(ast), List(ColumnDefs), r)
    {
      hide WellBuilt, Distinct, Grows, Ok, Fit, Counted;
      LaterAlready(ast);
      var count := Count(0, 3);
      var items: seq<Cell> := [];
      for n := 0 to count
        invariant Valid() && Later(old(ast), ast)
        invariant forall i :: 0 <= i < |items| ==> Fit(ast, ColumnDefs, items[i])
      {
        var name := Choose(NAMES);
        var ty := MaybeType();
        TwoFit(ast, ColumnDef, name, ty);
        items := items + [Node(ColumnDef, [name, ty])];
      }
      r := Extend(ColumnDefs, items);
    }

    /** The text of a literal, which a keyword has none of.  */
    method LiteralText() returns (r: Ref)
      requires Valid()
      modifies `ast, `born, `clock, `choices
      ensures Built(old(ast), Maybe(Strings), r)
    {
      LaterAlready(ast);
      var kind := Pick(6);
      r := Absent;
      if kind == 0 {
        r := Choose(NUMBERS);
      } else if kind == 1 {
        r := Choose(TEXTS);
      } else if kind == 2 {
        r := Intern("\\x00\\x41");
      }
    }

    /** An infix operator, which has a name only when it is none of the dialect's own.  */
    method Operator() returns (r: Ref)
      requires Valid()
      modifies `ast, `born, `clock, `choices
      ensures Built(old(ast), Maybe(Strings), r)
    {
      LaterAlready(ast);
      var op := Pick(35);
      r := Absent;
      if op == 34 {
        r := Intern("<=>");
      }
    }

    /** An expression with nothing under it.  */
    method Leaf() returns (cell: Cell)
      requires Valid()
      modifies `ast, `born, `clock, `choices
      ensures Valid() && Later(old(ast), ast) && Fit(ast, Exprs, cell)
    {
      hide WellBuilt, Distinct, Grows, Ok, Fit, Counted;
      LaterAlready(ast);
      var choice := Pick(6);
      if choice <= 2 {
        var name := Names(1, 3);
        OneFits(ast, Column, name);
        return Node(Column, [name]);
      } else if choice <= 4 {
        var text := LiteralText();
        OneFits(ast, Literal, text);
        return Node(Literal, [text]);
      } else {
        var name := Choose(NAMES);
        OneFits(ast, Parameter, name);
        return Node(Parameter, [name]);
      }
    }

    /** One expression.  */
    method Expr(depth: nat) returns (r: Ref)
      requires Valid()
      modifies this
      ensures Built(old(ast), Needs(Exprs), r)
      ensures Spends(old(Now()), Now(), 1, 9 * depth)
      ensures depth <= DEPTH ==> Fills(old(Now()), Now(), -33)
      decreases depth, 2
    {
      var cell;
      if depth == 0 || budget == 0 {
        cell := Leaf();
      } else {
        cell := Branch(depth);
      }
      r := Push(cell);
      budget := Minus(budget, 1);
    }

    /** An expression one level down that is often absent.  */
    method OptionalExpr(depth: nat) returns (r: Ref)
      requires Valid()
      modifies this
      ensures Built(old(ast), Maybe(Exprs), r)
      ensures Spends(old(Now()), Now(), 1, 9 * depth)
      ensures depth <= DEPTH ==> Fills(old(Now()), Now(), 0)
      decreases depth, 3
    {
      LaterAlready(ast);
      var yes := Chance(3);
      if yes {
        r := Expr(Minus(depth, 1));
      } else {
        r := Absent;
      }
    }

    /** The operand of a `CASE`, which may have none.  */
    method OptionalOperand(depth: nat) returns (r: Ref)
      requires Valid()
      modifies this
      ensures Built(old(ast), Maybe(Exprs), r)
      ensures Spends(old(Now()), Now(), 1, 9 * depth)
      ensures depth <= DEPTH ==> Fills(old(Now()), Now(), 0)
      decreases depth, 3
    {
      LaterAlready(ast);
      var yes := Chance(2);
      if yes {
        r := Expr(depth);
      } else {
        r := Absent;
      }
    }

    /** A run of so many expressions.  */
    method ExprRun(depth: nat, count: nat) returns (r: Ref)
      requires Valid()
      modifies this
      ensures Built(old(ast), List(ExprLists), r) && r.Run? && r.len == count
      ensures Spends(old(Now()), Now(), count, if count == 0 then 0 else 9 * depth + count - 1)
      ensures depth <= DEPTH ==> Fills(old(Now()), Now(), if count == 0 then 0 else -33)
      decreases depth, 3
    {
      hide WellBuilt, Distinct, Grows, Ok, Fit, Counted;
      LaterAlready(ast);
      var refs: seq<Cell> := [];
      for n := 0 to count
        invariant n == 0 ==> Now() == old(Now())
        invariant Spends(old(Now()), Now(), n, if n == 0 then 0 else 9 * depth + n - 1)
        invariant depth <= DEPTH ==> Fills(old(Now()), Now(), if n == 0 then 0 else -33)
        invariant Valid() && Later(old(ast), ast) && |refs| == n
        invariant forall i :: 0 <= i < |refs| ==> Fit(ast, ExprLists, refs[i])
      {
        var e := Expr(depth);
        OneFits(ast, ListedExpr, e);
        refs := refs + [Node(ListedExpr, [e])];
      }
      r := Extend(ExprLists, refs);
    }

    method ExprList(depth: nat) returns (r: Ref)
      requires Valid()
      modifies this
      ensures Built(old(ast), List(ExprLists), r)
      ensures Spends(old(Now()), Now(), 0, 9 * depth + 2)
      ensures depth <= DEPTH ==> Fills(old(Now()), Now(), 0)
      decreases depth, 4
    {
      var count := Count(0, 3);
      r := ExprRun(depth, count);
    }

    /** The arms of a `CASE`.  */
    method Arms(depth: nat) returns (r: Ref)
      requires Valid()
      modifies this
      ensures Built(old(ast), List(CaseArms), r)
      ensures Spends(old(Now()), Now(), 2, 9 * depth + 3)
      ensures depth <= DEPTH ==> Fills(old(Now()), Now(), 0)
      decreases depth, 3
    {
      hide WellBuilt, Distinct, Grows, Ok, Fit, Counted;
      LaterAlready(ast);
      var count := Count(1, 2);
      var arms: seq<Cell> := [];
      for n := 0 to count
        invariant n == 0 ==> Now() == old(Now())
        invariant Spends(old(Now()), Now(), 2 * n, if n == 0 then 0 else 9 * depth + 2 * n - 1)
        invariant depth <= DEPTH ==> Fills(old(Now()), Now(), if n == 0 then 0 else -33)
        invariant Valid() && Later(old(ast), ast)
        invariant forall i :: 0 <= i < |arms| ==> Fit(ast, CaseArms, arms[i])
      {
        var when_ := Expr(depth);
        var then_ := Expr(depth);
        TwoFit(ast, CaseArm, when_, then_);
        arms := arms + [Node(CaseArm, [when_, then_])];
      }
      r := Extend(CaseArms, arms);
    }

    /** An expression with something under it.  */
    method Branch(depth: nat) returns (cell: Cell)
      requires Valid() && 0 < depth
      modifies this
      ensures Valid() && Later(old(ast), ast) && Fit(ast, Exprs, cell)
      ensures Spends(old(Now()), Now(), 6, 9 * depth - 1)
      ensures depth <= DEPTH ==> Fills(old(Now()), Now(), 0)
      decreases depth, 1
    {
      hide WellBuilt, Distinct, Grows, Ok, Fit, Counted;
      var choice := Pick(12);
      if choice == 0 {
        cell := StarBranch();
      } else if choice <= 2 {
        cell := UnaryBranch(depth - 1);
      } else if choice <= 5 {
        cell := BinaryBranch(depth - 1);
      } else if choice == 6 {
        cell := CallBranch(depth - 1);
      } else if choice == 7 {
        cell := CastBranch(depth - 1);
      } else if choice == 8 {
        cell := CaseBranch(depth - 1);
      } else if choice == 9 {
        cell := BetweenBranch(depth - 1);
      } else if choice == 10 {
        cell := InBranch(depth - 1);
      } else {
        cell := NestedBranch(depth - 1);
      }
    }

    method StarBranch() returns (cell: Cell)
      requires Valid()
      modifies `ast, `born, `clock, `choices
      ensures Valid() && Later(old(ast), ast) && Fit(ast, Exprs, cell)
    {
      hide WellBuilt, Distinct, Grows, Ok, Fit, Counted;
      var qualifier := Names(0, 2);
      EmptyIsOk(ast, Targets);
      TwoFit(ast, Star, qualifier, Run(Targets, 0, 0));
      cell := Node(Star, [qualifier, Run(Targets, 0, 0)]);
    }

    method UnaryBranch(depth: nat) returns (cell: Cell)
      requires Valid()
      modifies this
      ensures Valid() && Later(old(ast), ast) && Fit(ast, Exprs, cell)
      ensures Spends(old(Now()), Now(), 1, 9 * depth)
      ensures depth <= DEPTH ==> Fills(old(Now()), Now(), 0)
      decreases depth, 11
    {
      hide WellBuilt, Distinct, Grows, Ok, Fit, Counted;
      var operand := Expr(depth);
      OneFits(ast, Unary, operand);
      cell := Node(Unary, [operand]);
    }

    method BinaryBranch(depth: nat) returns (cell: Cell)
      requires Valid()
      modifies this
      ensures Valid() && Later(old(ast), ast) && Fit(ast, Exprs, cell)
      ensures Spends(old(Now()), Now(), 2, 9 * depth + 1)
      ensures depth <= DEPTH ==> Fills(old(Now()), Now(), 0)
      decreases depth, 11
    {
      hide WellBuilt, Distinct, Grows, Ok, Fit, Counted;
      var left := Expr(depth);
      var right := Expr(depth);
      var named := Operator();
      ThreeFit(ast, Binary, named, left, right);
      cell := Node(Binary, [named, left, right]);
    }

    method CallBranch(depth: nat) returns (cell: Cell)
      requires Valid()
      modifies this
      ensures Valid() && Later(old(ast), ast) && Fit(ast, Exprs, cell)
      ensures Spends(old(Now()), Now(), 0, 9 * depth + 2)
      ensures depth <= DEPTH ==> Fills(old(Now()), Now(), 0)
      decreases depth, 11
    {
      hide WellBuilt, Distinct, Grows, Ok, Fit, Counted;
      var name := FunctionName();
      var args := ExprList(depth);
      TwoFit(ast, Call, name, args);
      cell := Node(Call, [name, args]);
    }

    method CastBranch(depth: nat) returns (cell: Cell)
      requires Valid()
      modifies this
      ensures Valid() && Later(old(ast), ast) && Fit(ast, Exprs, cell)
      ensures Spends(old(Now()), Now(), 1, 9 * depth)
      ensures depth <= DEPTH ==> Fills(old(Now()), Now(), 0)
      decreases depth, 11
    {
      hide WellBuilt, Distinct, Grows, Ok, Fit, Counted;
      var operand := Expr(depth);
      var ty := Choose(TYPES);
      TwoFit(ast, Cast, operand, ty);
      cell := Node(Cast, [operand, ty]);
    }

    method CaseBranch(depth: nat) returns (cell: Cell)
      requires Valid()
      modifies this
      ensures Valid() && Later(old(ast), ast) && Fit(ast, Exprs, cell)
      ensures Spends(old(Now()), Now(), 4, 9 * depth + 4)
      ensures depth <= DEPTH ==> Fills(old(Now()), Now(), 0)
      decreases depth, 11
    {
      hide WellBuilt, Distinct, Grows, Ok, Fit, Counted;
      var operand := OptionalOperand(depth);
      var arms := Arms(depth);
      var otherwise := OptionalExpr(depth);
      ThreeFit(ast, Case, operand, arms, otherwise);
      cell := Node(Case, [operand, arms, otherwise]);
    }

    method BetweenBranch(depth: nat) returns (cell: Cell)
      requires Valid()
      modifies this
      ensures Valid() && Later(old(ast), ast) && Fit(ast, Exprs, cell)
      ensures Spends(old(Now()), Now(), 3, 9 * depth + 2)
      ensures depth <= DEPTH ==> Fills(old(Now()), Now(), 0)
      decreases depth, 11
    {
      hide WellBuilt, Distinct, Grows, Ok, Fit, Counted;
      var operand := Expr(depth);
      var low := Expr(depth);
      var high := Expr(depth);
      ThreeFit(ast, Between, operand, low, high);
      cell := Node(Between, [operand, low, high]);
    }

    method InBranch(depth: nat) returns (cell: Cell)
      requires Valid()
      modifies this
      ensures Valid() && Later(old(ast), ast) && Fit(ast, Exprs, cell)
      ensures Spends(old(Now()), Now(), 1, 9 * depth + 2)
      ensures depth <= DEPTH ==> Fills(old(Now()), Now(), 0)
      decreases depth, 11
    {
      hide WellBuilt, Distinct, Grows, Ok, Fit, Counted;
      var operand := Expr(depth);
      var list := ExprList(depth);
      TwoFit(ast, In, operand, list);
      cell := Node(In, [operand, list]);
    }

    method NestedBranch(depth: nat) returns (cell: Cell)
      requires Valid()
      modifies this
      ensures Valid() && Later(old(ast), ast) && Fit(ast, Exprs, cell)
      ensures Spends(old(Now()), Now(), 6, 9 * depth + 8)
      ensures depth <= DEPTH ==> Fills(old(Now()), Now(), 0)
      decreases depth, 11
    {
      hide WellBuilt, Distinct, Grows, Ok, Fit, Counted;
      var which := Pick(3);
      if which < 2 {
        var items := ExprList(depth);
        OneFits(ast, Items, items);
        return Node(Items, [items]);
      }
      var query := Query(depth);
      OneFits(ast, Subquery, query);
      cell := Node(Subquery, [query]);
    }

    /** A target list, or the arguments of a table function.  */
    method TargetRun(depth: nat) returns (r: Ref)
      requires Valid()
      modifies this
      ensures Built(old(ast), List(Targets), r)
      ensures Spends(old(Now()), Now(), 1, 9 * depth + 2)
      ensures depth <= DEPTH ==> Fills(old(Now()), Now(), -33)
      decreases depth, 3
    {
      hide WellBuilt, Distinct, Grows, Ok, Fit, Counted;
      LaterAlready(ast);
      var count := Count(1, 3);
      var items: seq<Cell> := [];
      for n := 0 to count
        invariant n == 0 ==> Now() == old(Now())
        invariant Spends(old(Now()), Now(), n, if n == 0 then 0 else 9 * depth + n - 1)
        invariant depth <= DEPTH ==> Fills(old(Now()), Now(), if n == 0 then 0 else -33)
        invariant Valid() && Later(old(ast), ast)
        invariant forall i :: 0 <= i < |items| ==> Fit(ast, Targets, items[i])
      {
        var e := Expr(depth);
        var alias := OptionalString();
        TwoFit(ast, Target, e, alias);
        items := items + [Node(Target, [e, alias])];
      }
      r := Extend(Targets, items);
    }

    method OrderRun(depth: nat) returns (r: Ref)
      requires Valid()
      modifies this
      ensures Built(old(ast), List(OrderItems), r)
      ensures Spends(old(Now()), Now(), 1, 9 * depth + 1)
      ensures depth <= DEPTH ==> Fills(old(Now()), Now(), 0)
      decreases depth, 3
    {
      hide WellBuilt, Distinct, Grows, Ok, Fit, Counted;
      LaterAlready(ast);
      var count := Count(1, 2);
      var items: seq<Cell> := [];
      for n := 0 to count
        invariant n == 0 ==> Now() == old(Now())
        invariant Spends(old(Now()), Now(), n, if n == 0 then 0 else 9 * depth + n - 1)
        invariant depth <= DEPTH ==> Fills(old(Now()), Now(), if n == 0 then 0 else -33)
        invariant Valid() && Later(old(ast), ast)
        invariant forall i :: 0 <= i < |items| ==> Fit(ast, OrderItems, items[i])
      {
        var e := Expr(depth);
        var order := Pick(3);
        var nulls := Pick(3);
        OneFits(ast, OrderItem, e);
        items := items + [Node(OrderItem, [e])];
      }
      r := Extend(OrderItems, items);
    }

    /** The rows of a `VALUES`, all of one width.  */
    method RowRun(depth: nat) returns (r: Ref)
      requires Valid()
      modifies this
      ensures Built(old(ast), Grid, r)
      ensures Spends(old(Now()), Now(), 1, 9 * Minus(depth, 1) + 8)
      ensures depth <= DEPTH ==> Fills(old(Now()), Now(), -33)
      decreases depth, 4
    {
      hide WellBuilt, Distinct, Grows, Ok, Fit, Counted;
      LaterAlready(ast);
      var height := Count(1, 3);
      var width := Count(1, 3);
      var rows: seq<Cell> := [];
      for n := 0 to height
        invariant n == 0 ==> Now() == old(Now())
        invariant Spends(old(Now()), Now(), if width == 1 then n else 3 * n, if n == 0 then 0 else 9 * Minus(depth, 1) + 3 * n - 1)
        invariant depth <= DEPTH ==> Fills(old(Now()), Now(), if n == 0 then 0 else -33)
        invariant Valid() && Later(old(ast), ast) && |rows| == n && SameWidth(rows, width)
        invariant forall i :: 0 <= i < |rows| ==> Fit(ast, Rows, rows[i])
      {
        var refs := ExprRun(Minus(depth, 1), width);
        OneFits(ast, ValuesRow, refs);
        rows := rows + [Node(ValuesRow, [refs])];
      }
      r := Extend(Rows, rows);
      assert SameWidth(rows, width);
      EvenIsGrid(ast, r);
    }

    method TableSource() returns (cell: Cell)
      requires Valid()
      modifies `ast, `born, `clock, `choices
      ensures Valid() && Later(old(ast), ast) && Fit(ast, Sources, cell)
    {
      hide WellBuilt, Distinct, Grows, Ok, Fit, Counted;
      LaterAlready(ast);
      var name := Names(1, 3);
      var alias := OptionalString();
      var columns := Names(0, 2);
      ThreeFit(ast, Table, name, alias, columns);
      cell := Node(Table, [name, alias, columns]);
    }

    /** One `FROM` entry.  */
    method Source(depth: nat) returns (r: Ref)
      requires Valid()
      modifies this
      ensures Built(old(ast), Needs(Sources), r)
      ensures Spends(old(Now()), Now(), 0, Minus(9 * depth, 1))
      ensures depth <= DEPTH ==> Fills(old(Now()), Now(), Room(depth))
      decreases depth, 5
    {
      var cell;
      if depth == 0 || budget == 0 {
        cell := TableSource();
      } else {
        cell := DeepSource(depth);
      }
      r := Push(cell);
    }

    method DeepSource(depth: nat) returns (cell: Cell)
      requires Valid() && 0 < depth
      modifies this
      ensures Valid() && Later(old(ast), ast) && Fit(ast, Sources, cell)
      ensures Spends(old(Now()), Now(), 6, 9 * depth - 1)
      ensures depth <= DEPTH ==> Fills(old(Now()), Now(), Room(depth) - 1)
      decreases depth, 4
    {
      hide WellBuilt, Distinct, Grows, Ok, Fit, Counted;
      var choice := Pick(8);
      if choice <= 3 {
        cell := TableSource();
      } else if choice == 4 {
        cell := SubqueryEntry(depth - 1);
      } else if choice == 5 {
        cell := FunctionEntry(depth - 1);
      } else if choice == 6 {
        cell := ValuesEntry(depth - 1);
      } else {
        cell := JoinEntry(depth - 1);
      }
    }

    method SubqueryEntry(depth: nat) returns (cell: Cell)
      requires Valid()
      modifies this
      ensures Valid() && Later(old(ast), ast) && Fit(ast, Sources, cell)
      ensures Spends(old(Now()), Now(), 6, 9 * depth + 8)
      ensures depth <= DEPTH ==> Fills(old(Now()), Now(), -1)
      decreases depth, 11
    {
      hide WellBuilt, Distinct, Grows, Ok, Fit, Counted;
      LaterAlready(ast);
      var query := Query(depth);
      var alias := OptionalString();
      var columns := Names(0, 2);
      ThreeFit(ast, SubquerySource, query, alias, columns);
      cell := Node(SubquerySource, [query, alias, columns]);
    }

    method FunctionEntry(depth: nat) returns (cell: Cell)
      requires Valid()
      modifies this
      ensures Valid() && Later(old(ast), ast) && Fit(ast, Sources, cell)
      ensures Spends(old(Now()), Now(), 1, 9 * depth + 2)
      ensures depth <= DEPTH ==> Fills(old(Now()), Now(), -33)
      decreases depth, 11
    {
      hide WellBuilt, Distinct, Grows, Ok, Fit, Counted;
      LaterAlready(ast);
      var name := Names(1, 3);
      var args := TargetRun(depth);
      var alias := OptionalString();
      var columns := Names(0, 2);
      FourFit(ast, FunctionSource, name, args, alias, columns);
      cell := Node(FunctionSource, [name, args, alias, columns]);
    }

    method ValuesEntry(depth: nat) returns (cell: Cell)
      requires Valid()
      modifies this
      ensures Valid() && Later(old(ast), ast) && Fit(ast, Sources, cell)
      ensures Spends(old(Now()), Now(), 1, 9 * depth + 8)
      ensures depth <= DEPTH ==> Fills(old(Now()), Now(), -33)
      decreases depth, 11
    {
      hide WellBuilt, Distinct, Grows, Ok, Fit, Counted;
      LaterAlready(ast);
      var rows := RowRun(depth);
      var alias := OptionalString();
      var columns := Names(0, 2);
      ThreeFit(ast, ValuesSource, rows, alias, columns);
      cell := Node(ValuesSource, [rows, alias, columns]);
    }

    method JoinEntry(depth: nat) returns (cell: Cell)
      requires Valid()
      modifies this
      ensures Valid() && Later(old(ast), ast) && Fit(ast, Sources, cell)
      ensures Spends(old(Now()), Now(), 1, 9 * depth + 1)
      ensures depth <= DEPTH ==> Fills(old(Now()), Now(), 2 * Room(depth))
      decreases depth, 11
    {
      hide WellBuilt, Distinct, Grows, Ok, Fit, Counted;
      LaterAlready(ast);
      var left := Source(depth);
      var right := Source(depth);
      var on := OptionalExpr(depth);
      var columns := Names(0, 2);
      FourFit(ast, Join, left, right, on, columns);
      cell := Node(Join, [left, right, on, columns]);
    }

    method SourceRun(depth: nat) returns (r: Ref)
      requires Valid()
      modifies this
      ensures Built(old(ast), List(SourceLists), r)
      ensures Spends(old(Now()), Now(), 0, 9 * depth)
      ensures depth <= DEPTH ==> Fills(old(Now()), Now(), 2 * Room(depth))
      decreases depth, 6
    {
      hide WellBuilt, Distinct, Grows, Ok, Fit, Counted;
      LaterAlready(ast);
      var count := Count(0, 2);
      var refs: seq<Cell> := [];
      for n := 0 to count
        invariant Spends(old(Now()), Now(), 0, 9 * depth)
        invariant depth <= DEPTH ==> Fills(old(Now()), Now(), if n == 0 then 0 else if n == 1 then Room(depth) else 2 * Room(depth))
        invariant Valid() && Later(old(ast), ast)
        invariant forall i :: 0 <= i < |refs| ==> Fit(ast, SourceLists, refs[i])
      {
        var source := Source(depth);
        OneFits(ast, ListedSource, source);
        refs := refs + [Node(ListedSource, [source])];
      }
      r := Extend(SourceLists, refs);
    }

    method MaybeExprList(depth: nat, yes: bool) returns (r: Ref)
      requires Valid()
      modifies this
      ensures Built(old(ast), List(ExprLists), r)
      ensures Spends(old(Now()), Now(), 0, 9 * depth + 2)
      ensures depth <= DEPTH ==> Fills(old(Now()), Now(), 0)
      decreases depth, 5
    {
      LaterAlready(ast);
      r := Run(ExprLists, 0, 0);
      if yes {
        r := ExprList(depth);
      }
    }

    method MaybeOrder(depth: nat) returns (r: Ref)
      requires Valid()
      modifies this
      ensures Built(old(ast), List(OrderItems), r)
      ensures Spends(old(Now()), Now(), 1, 9 * depth + 1)
      ensures depth <= DEPTH ==> Fills(old(Now()), Now(), 0)
      decreases depth, 5
    {
      LaterAlready(ast);
      r := Run(OrderItems, 0, 0);
      var yes := Chance(3);
      if yes {
        r := OrderRun(depth);
      }
    }

    /** What a select block returns, and from what.  */
    method SelectFrom(depth: nat) returns (distinct: Ref, targets: Ref, from: Ref)
      requires Valid()
      modifies this
      ensures Built(old(ast), List(ExprLists), distinct)
      ensures Built(old(ast), List(Targets), targets) && Built(old(ast), List(SourceLists), from)
      ensures Spends(old(Now()), Now(), 1, 9 * depth + 3)
      ensures depth <= DEPTH ==> Fills(old(Now()), Now(), 2 * Room(depth) - 33)
      decreases depth, 7
    {
      hide WellBuilt, Distinct, Grows, Ok, Fit, Counted;
      var choice := Pick(6);
      distinct := MaybeExprList(depth, choice == 5);
      from := SourceRun(depth);
      targets := TargetRun(depth);
    }

    /** What a select block keeps and groups.  */
    method SelectWhere(depth: nat) returns (filter: Ref, groups: Ref, having: Ref)
      requires Valid()
      modifies this
      ensures Built(old(ast), Maybe(Exprs), filter)
      ensures Built(old(ast), List(ExprLists), groups) && Built(old(ast), Maybe(Exprs), having)
      ensures Spends(old(Now()), Now(), 2, 9 * depth + 3)
      ensures depth <= DEPTH ==> Fills(old(Now()), Now(), 0)
      decreases depth, 7
    {
      hide WellBuilt, Distinct, Grows, Ok, Fit, Counted;
      filter := OptionalExpr(depth);
      var grouped := Chance(3);
      groups := MaybeExprList(depth, grouped);
      having := OptionalExpr(depth);
    }

    /** One select block.  */
    method SelectBlock(depth: nat) returns (r: Ref)
      requires Valid()
      modifies this
      ensures Built(old(ast), Needs(Selects), r)
      ensures Spends(old(Now()), Now(), 3, 9 * depth + 5)
      ensures depth <= DEPTH ==> Fills(old(Now()), Now(), -2)
      decreases depth, 8
    {
      hide WellBuilt, Distinct, Grows, Ok, Fit, Counted;
      var distinct, targets, from := SelectFrom(depth);
      var filter, groups, having := SelectWhere(depth);
      SelectFits(ast, distinct, targets, from, filter, groups, having);
      if depth <= DEPTH {
        RoomAtDepth(depth);
      }
      r := Push(Node(Select, [distinct, targets, from, filter, groups, having]));
    }

    /** A query: what produces the rows, and the modifiers on it.  */
    method Query(depth: nat) returns (r: Ref)
      requires Valid()
      modifies this
      ensures Built(old(ast), Needs(Queries), r)
      ensures Spends(old(Now()), Now(), 6, 9 * depth + 8)
      ensures depth <= DEPTH ==> Fills(old(Now()), Now(), -1)
      decreases depth, 10
    {
      hide WellBuilt, Distinct, Grows, Ok, Fit, Counted;
      LaterAlready(ast);
      var form, body := Body(depth);
      ghost var before := ast;
      var order := MaybeOrder(depth);
      var limit := OptionalExpr(depth);
      var offset := OptionalExpr(depth);
      BodyStays(before, ast, form, body);
      QueryFits(ast, form, body, order, limit, offset);
      r := Push(Node(form, body + [order, limit, offset]));
    }

    /** What produces the rows, as the kind of query it makes and the references it starts with.  */
    method Body(depth: nat) returns (form: Form, body: seq<Ref>)
      requires Valid()
      modifies this
      ensures Valid() && Later(old(ast), ast) && IsBody(ast, form, body)
      ensures Spends(old(Now()), Now(), 3, 9 * depth + 5)
      ensures depth <= DEPTH ==> Fills(old(Now()), Now(), -2)
      decreases depth, 9
    {
      hide WellBuilt, Distinct, Grows, Ok, Fit, Counted;
      LaterAlready(ast);
      if depth == 0 || budget == 0 {
        var select := SelectBlock(0);
        return SelectQuery, [select];
      }
      var choice := Pick(8);
      if choice <= 4 {
        var select := SelectBlock(depth);
        return SelectQuery, [select];
      } else if choice <= 6 {
        var left := Query(depth - 1);
        var right := Query(depth - 1);
        return SetOpQuery, [left, right];
      } else {
        var rows := RowRun(depth);
        return ValuesQuery, [rows];
      }
    }

    method MaybeQuery(depth: nat) returns (r: Ref)
      requires Valid()
      modifies this
      ensures Built(old(ast), Maybe(Queries), r)
      ensures Spends(old(Now()), Now(), 6, 9 * depth + 8)
      ensures depth <= DEPTH ==> Fills(old(Now()), Now(), 0)
    {
      LaterAlready(ast);
      r := Absent;
      var yes := Chance(2);
      if yes {
        r := Query(depth);
      }
    }

    method CreateStatement(depth: nat) returns (r: Ref)
      requires Valid()
      modifies this
      ensures Built(old(ast), Needs(CreateTables), r)
      ensures Spends(old(Now()), Now(), 6, 9 * depth + 8)
      ensures depth <= DEPTH ==> Fills(old(Now()), Now(), 1)
    {
      hide WellBuilt, Distinct, Grows, Ok, Fit, Counted;
      var name := Names(1, 3);
      var columns := ColumnRun();
      var query := MaybeQuery(depth);
      ThreeFit(ast, CreateTable, name, columns, query);
      r := Push(Node(CreateTable, [name, columns, query]));
    }

    method InsertStatement(depth: nat) returns (r: Ref)
      requires Valid()
      modifies this
      ensures Built(old(ast), Needs(Inserts), r)
      ensures Spends(old(Now()), Now(), 6, 9 * depth + 8)
      ensures depth <= DEPTH ==> Fills(old(Now()), Now(), 0)
    {
      hide WellBuilt, Distinct, Grows, Ok, Fit, Counted;
      var name := Names(1, 3);
      var columns := Names(0, 2);
      var source := Query(depth);
      ThreeFit(ast, Insert, name, columns, source);
      r := Push(Node(Insert, [name, columns, source]));
    }

    method DropStatement() returns (r: Ref)
      requires Valid()
      modifies this
      ensures Built(old(ast), Needs(DropTables), r)
      ensures budget == old(budget) && built == old(built) && nodes == old(nodes) + 1
    {
      hide WellBuilt, Distinct, Grows, Ok, Fit, Counted;
      var names := NameRuns();
      OneFits(ast, DropTable, names);
      r := Push(Node(DropTable, [names]));
    }

    /** One statement.  */
    method Statement(depth: nat) returns (r: Ref)
      requires Valid()
      modifies this
      ensures exists arena :: arena in STATEMENTS && Built(old(ast), Needs(arena), r)
      ensures Spends(old(Now()), Now(), 6, 9 * depth + 8)
      ensures depth <= DEPTH ==> Fills(old(Now()), Now(), 1)
    {
      hide WellBuilt, Distinct, Grows, Ok, Fit, Counted;
      var choice := Pick(7);
      if choice <= 3 {
        r := Query(depth);
      } else if choice == 4 {
        r := CreateStatement(depth);
      } else if choice == 5 {
        r := InsertStatement(depth);
      } else {
        r := DropStatement();
      }
    }
  }

  /** Whatever the choices, a statement comes out, and the arenas it is in are well built.  */
  method Generate(choices: seq<nat>) returns (ast: Ast, statement: Ref, ghost born: Births, ghost clock: nat)
    ensures WellBuilt(ast, born, clock) && Distinct(Cells(ast, Strings))
    ensures exists arena :: arena in STATEMENTS && Ok(ast, Needs(arena), statement)
    ensures |Cells(ast, Exprs)| <= BUDGET + 35 && NodeCount(ast) <= SHARE * (BUDGET + 35) + 1
  {
    hide WellBuilt, Distinct, Ok, Later, NodeCount;
    var builder := new Builder(choices);
    statement := builder.Statement(DEPTH);
    ast := builder.ast;
    born, clock := builder.born, builder.clock;
  }

  /** In well built arenas every `VALUES` has rows of one width.  */
  lemma ValuesAreEven(ast: Ast, born: Births, clock: nat, arena: Arena, index: nat)
    requires WellBuilt(ast, born, clock) && index < |Cells(ast, arena)| && Cells(ast, arena)[index].Node?
    requires var form := Cells(ast, arena)[index].form; form == ValuesQuery || form == ValuesSource
    ensures var refs := Cells(ast, arena)[index].refs;
            && refs != [] && refs[0].Run? && refs[0].arena == Rows
            && refs[0].start + refs[0].len <= |Cells(ast, Rows)|
            && Even(Cells(ast, Rows)[refs[0].start..refs[0].start + refs[0].len])
  {
    var cell := Cells(ast, arena)[index];
    assert CellBuilt(ast, born, clock, arena, index);
    assert Ok(ast, Fields(cell.form)[0], cell.refs[0]);
  }

  const STATEMENTS: set<Arena> := {Queries, CreateTables, Inserts, DropTables}

  lemma SelectFits(ast: Ast, a: Ref, b: Ref, c: Ref, d: Ref, e: Ref, f: Ref)
    requires Ok(ast, List(ExprLists), a) && Ok(ast, List(Targets), b) && Ok(ast, List(SourceLists), c)
    requires Ok(ast, Maybe(Exprs), d) && Ok(ast, List(ExprLists), e) && Ok(ast, Maybe(Exprs), f)
    ensures Fit(ast, Selects, Node(Select, [a, b, c, d, e, f]))
  {
    hide Ok;
  }

  /** The references of a query body, before the modifiers.  */
  predicate IsBody(ast: Ast, form: Form, body: seq<Ref>) {
    && (form == SelectQuery || form == SetOpQuery || form == ValuesQuery)
    && |body| + 3 == |Fields(form)|
    && forall k :: 0 <= k < |body| ==> Ok(ast, Fields(form)[k], body[k])
  }

  lemma BodyStays(before: Ast, after: Ast, form: Form, body: seq<Ref>)
    requires Later(before, after) && IsBody(before, form, body)
    ensures IsBody(after, form, body)
  {
    hide Ok;
  }

  lemma QueryFits(ast: Ast, form: Form, body: seq<Ref>, order: Ref, limit: Ref, offset: Ref)
    requires IsBody(ast, form, body)
    requires Ok(ast, List(OrderItems), order) && Ok(ast, Maybe(Exprs), limit) && Ok(ast, Maybe(Exprs), offset)
    ensures Fit(ast, Queries, Node(form, body + [order, limit, offset]))
  {
    hide Ok;
    var refs := body + [order, limit, offset];
    forall k | 0 <= k < |refs| ensures Ok(ast, Fields(form)[k], refs[k]) {
      assert k >= |body| ==> refs[k] == [order, limit, offset][k - |body|];
    }
  }
}
