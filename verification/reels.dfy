/** Reel generation: every column draws without replacement from its own
    fresh copy of the symbol pool, with `rand()` supplied as a sequence of
    draws. The sampling itself never looks at the symbols, so it is stated
    for any element type `T`. */
module Reels {
  import opened Outcomes
  import opened Symbols

  /** One reel: its entries from the top row down. */
  type Column<T> = seq<T>

  /** The grid of one spin of the machine, column by column. */
  type Arrangement = seq<Column<Symbol>>

  /** A column fits a pool when it uses no element more often than the pool holds it. */
  predicate FitsIn<T(==)>(col: Column<T>, pool: seq<T>)
  {
    multiset(col) <= multiset(pool)
  }

  /** `grid` is made of `rows`-tall columns, each fitting in `pool`. */
  predicate Drawable<T(==)>(grid: seq<Column<T>>, rows: nat, pool: seq<T>)
  {
    forall c :: 0 <= c < |grid| ==> |grid[c]| == rows && FitsIn(grid[c], pool)
  }

  lemma DrawableCons<T>(col: Column<T>, grid: seq<Column<T>>, rows: nat, pool: seq<T>)
    requires |col| == rows && FitsIn(col, pool)
    requires Drawable(grid, rows, pool)
    ensures Drawable([col] + grid, rows, pool)
  {
    forall c | 0 <= c < |[col] + grid|
      ensures |([col] + grid)[c]| == rows && FitsIn(([col] + grid)[c], pool)
    {
      if c > 0 {
        assert ([col] + grid)[c] == grid[c - 1];
      }
    }
  }

  /** `v.erase(v.begin() + i)`: the pool with the element at index `i` taken out. */
  function RemoveAt<T>(s: seq<T>, i: nat): (r: seq<T>)
    requires i < |s|
    ensures |r| == |s| - 1
  {
    s[..i] + s[i + 1..]
  }

  /** Erasing keeps the elements before `i` in place and shifts the ones
      after it down by one. */
  lemma RemoveAtShifts<T>(s: seq<T>, i: nat)
    requires i < |s|
    ensures forall k :: 0 <= k < i ==> RemoveAt(s, i)[k] == s[k]
    ensures forall k :: i <= k < |s| - 1 ==> RemoveAt(s, i)[k] == s[k + 1]
  {
  }

  /** Erasing removes exactly one occurrence of the erased element. */
  lemma RemoveAtOccurrences<T>(s: seq<T>, i: nat)
    requires i < |s|
    ensures multiset(RemoveAt(s, i)) == multiset(s) - multiset{s[i]}
  {
    assert s == s[..i] + [s[i]] + s[i + 1..];
  }

  /** Fills one column of `rows` entries from `remaining`, consuming one draw
      per entry: the draw `d` picks index `d % |remaining|`, whose element is
      appended to the column and erased from the pool. A pool that runs empty
      before the column is full is a failure. */
  function DrawColumn<T(==)>(remaining: seq<T>, rows: nat, draws: seq<nat>): (r: Result<Column<T>>)
    requires |draws| >= rows
    ensures r.Success? <==> rows <= |remaining|
    ensures r.Failure? ==> r.error == PoolExhausted
    ensures r.Success? ==> |r.value| == rows
    decreases rows
  {
    if rows == 0 then Success([])
    else if |remaining| == 0 then Failure(PoolExhausted)
    else
      var i := draws[0] % |remaining|;
      var rest := DrawColumn(RemoveAt(remaining, i), rows - 1, draws[1..]);
      if rest.Failure? then rest else Success([remaining[i]] + rest.value)
  }

  /** Sampling without replacement: a drawn column uses no element more
      often than the pool it was drawn from holds it. */
  lemma {:induction false} DrawColumnFits<T>(remaining: seq<T>, rows: nat, draws: seq<nat>)
    requires |draws| >= rows
    ensures var r := DrawColumn(remaining, rows, draws);
      r.Success? ==> FitsIn(r.value, remaining)
    decreases rows
  {
    if rows > 0 && |remaining| > 0 {
      var i := draws[0] % |remaining|;
      var smaller := RemoveAt(remaining, i);
      RemoveAtOccurrences(remaining, i);
      DrawColumnFits(smaller, rows - 1, draws[1..]);
      var rest := DrawColumn(smaller, rows - 1, draws[1..]);
      if rest.Success? {
        assert multiset([remaining[i]] + rest.value) == multiset{remaining[i]} + multiset(rest.value);
      }
    }
  }

  /** Number of draws `cols` columns of `rows` entries consume, counted
      column by column. */
  function DrawCount(rows: nat, cols: nat): nat
  {
    if cols == 0 then 0 else DrawCount(rows, cols - 1) + rows
  }

  lemma {:induction false} DrawCountIsProduct(rows: nat, cols: nat)
    ensures DrawCount(rows, cols) == rows * cols
  {
    if cols > 0 {
      DrawCountIsProduct(rows, cols - 1);
      assert rows * cols == rows * (cols - 1) + rows;
    }
  }

  /** The draws of `cols` columns are those of the first column followed by
      those of the remaining `cols - 1`. */
  lemma DrawCountFromFront(rows: nat, cols: nat)
    requires cols > 0
    ensures DrawCount(rows, cols) == rows + DrawCount(rows, cols - 1)
  {
  }

  /** Fills `cols` columns one after the other, each from a fresh copy of
      `pool`, each consuming the next `rows` draws. */
  function DrawColumns<T(==)>(pool: seq<T>, rows: nat, cols: nat, draws: seq<nat>): (r: Result<seq<Column<T>>>)
    requires |draws| >= DrawCount(rows, cols)
    ensures r.Success? <==> cols == 0 || rows <= |pool|
    ensures r.Failure? ==> r.error == PoolExhausted
    ensures r.Success? ==> |r.value| == cols
    ensures r.Success? ==> forall c :: 0 <= c < |r.value| ==> |r.value[c]| == rows
    decreases cols
  {
    if cols == 0 then Success([])
    else
      var first := DrawColumn(pool, rows, draws[..rows]);
      if first.Failure? then Failure(first.error)
      else
        var rest := DrawColumns(pool, rows, cols - 1, draws[rows..]);
        if rest.Failure? then rest else Success([first.value] + rest.value)
  }

  /** Every column of a drawn grid fits in the full pool, because each column
      starts from a fresh copy of it. */
  lemma {:induction false} DrawColumnsFit<T>(pool: seq<T>, rows: nat, cols: nat, draws: seq<nat>)
    requires |draws| >= DrawCount(rows, cols)
    ensures var r := DrawColumns(pool, rows, cols, draws);
      r.Success? ==> Drawable(r.value, rows, pool)
    decreases cols
  {
    if cols > 0 {
      DrawCountFromFront(rows, cols);
      var first := DrawColumn(pool, rows, draws[..rows]);
      var rest := DrawColumns(pool, rows, cols - 1, draws[rows..]);
      DrawColumnFits(pool, rows, draws[..rows]);
      DrawColumnsFit(pool, rows, cols - 1, draws[rows..]);
      if first.Success? && rest.Success? {
        DrawableCons(first.value, rest.value, rows, pool);
      }
    }
  }

  lemma SliceOfSuffix(s: seq<nat>, k: nat, lo: nat, hi: nat)
    requires k <= |s| && lo <= hi <= |s| - k
    ensures s[k..][lo..hi] == s[k + lo .. k + hi]
  {
  }

  /** Each column is drawn on its own: column `c` is exactly what a single
      column draw makes of a fresh pool with the `c`-th block of `rows` draws. */
  lemma {:induction false} ColumnsFromOwnDraws<T>(pool: seq<T>, rows: nat, cols: nat, draws: seq<nat>, c: nat)
    requires |draws| >= DrawCount(rows, cols)
    requires c < cols
    requires rows <= |pool|
    ensures DrawCount(rows, c) + rows <= |draws|
    ensures DrawColumns(pool, rows, cols, draws).value[c]
      == DrawColumn(pool, rows, draws[DrawCount(rows, c) .. DrawCount(rows, c) + rows]).value
    decreases cols
  {
    DrawCountFromFront(rows, cols);
    var tail := draws[rows..];
    var r := DrawColumns(pool, rows, cols, draws);
    var rest := DrawColumns(pool, rows, cols - 1, tail);
    var first := DrawColumn(pool, rows, draws[..rows]);
    assert r.value == [first.value] + rest.value;
    if c > 0 {
      DrawCountFromFront(rows, c);
      ColumnsFromOwnDraws(pool, rows, cols - 1, tail, c - 1);
      var lo := DrawCount(rows, c - 1);
      SliceOfSuffix(draws, rows, lo, lo + rows);
      assert r.value[c] == rest.value[c - 1];
    } else {
      assert draws[DrawCount(rows, c) .. DrawCount(rows, c) + rows] == draws[..rows];
    }
  }

  /** First index at which `x` occurs in `s`. */
  function IndexOf<T(==)>(s: seq<T>, x: T): (i: nat)
    requires x in s
    ensures i < |s| && s[i] == x
  {
    if s[0] == x then 0 else 1 + IndexOf(s[1..], x)
  }

  /** Draws that make a column draw produce `col`: at each step the index of
      the wanted element in what is left of the pool. */
  function DrawsFor<T(==)>(pool: seq<T>, col: Column<T>): (ds: seq<nat>)
    requires FitsIn(col, pool)
    ensures |ds| == |col|
  {
    if |col| == 0 then []
    else
      assert col == [col[0]] + col[1..];
      assert col[0] in multiset(pool);
      var i := IndexOf(pool, col[0]);
      RemoveAtOccurrences(pool, i);
      [i] + DrawsFor(RemoveAt(pool, i), col[1..])
  }

  lemma SmallRemainder(i: nat, n: nat)
    requires i < n
    ensures i % n == i
  {
  }

  /** Every column that fits in the pool can be drawn: with the draws
      `DrawsFor` gives, the column draw returns exactly `col`. */
  lemma {:induction false} DrawColumnReaches<T>(pool: seq<T>, col: Column<T>)
    requires FitsIn(col, pool)
    ensures DrawColumn(pool, |col|, DrawsFor(pool, col)) == Success(col)
  {
    if |col| > 0 {
      assert col == [col[0]] + col[1..];
      assert col[0] in multiset(pool);
      var i := IndexOf(pool, col[0]);
      RemoveAtOccurrences(pool, i);
      var ds := DrawsFor(pool, col);
      SmallRemainder(i, |pool|);
      assert ds[1..] == DrawsFor(RemoveAt(pool, i), col[1..]);
      DrawColumnReaches(RemoveAt(pool, i), col[1..]);
    }
  }

  /** Draws for a whole grid: the draws of each column, in column order. */
  function DrawsForAll<T(==)>(pool: seq<T>, grid: seq<Column<T>>): (ds: seq<nat>)
    requires forall c :: 0 <= c < |grid| ==> FitsIn(grid[c], pool)
  {
    if |grid| == 0 then [] else DrawsFor(pool, grid[0]) + DrawsForAll(pool, grid[1..])
  }

  /** Every grid of `rows`-tall columns that each fit in the pool is a
      possible spin: together with `DrawColumnsFit` this makes the possible
      spins exactly the drawable grids. */
  lemma {:induction false} DrawColumnsReaches<T>(pool: seq<T>, rows: nat, grid: seq<Column<T>>)
    requires Drawable(grid, rows, pool)
    ensures |DrawsForAll(pool, grid)| == DrawCount(rows, |grid|)
    ensures DrawColumns(pool, rows, |grid|, DrawsForAll(pool, grid)) == Success(grid)
  {
    if |grid| > 0 {
      var first := DrawsFor(pool, grid[0]);
      var rest := DrawsForAll(pool, grid[1..]);
      assert Drawable(grid[1..], rows, pool) by {
        forall c | 0 <= c < |grid[1..]|
          ensures |grid[1..][c]| == rows && FitsIn(grid[1..][c], pool)
        {
          assert grid[1..][c] == grid[c + 1];
        }
      }
      DrawColumnsReaches(pool, rows, grid[1..]);
      DrawColumnReaches(pool, grid[0]);
      DrawColumnsStep(pool, rows, |grid|, first, rest, grid[0], grid[1..]);
      assert [grid[0]] + grid[1..] == grid;
    }
  }

  /** One step of `DrawColumns`: the first column from the first `rows`
      draws, the others from the rest. */
  lemma DrawColumnsStep<T>(pool: seq<T>, rows: nat, cols: nat, first: seq<nat>, rest: seq<nat>,
                           col: Column<T>, more: seq<Column<T>>)
    requires cols > 0 && |first| == rows && |rest| == DrawCount(rows, cols - 1)
    requires DrawColumn(pool, rows, first) == Success(col)
    requires DrawColumns(pool, rows, cols - 1, rest) == Success(more)
    ensures |first + rest| == DrawCount(rows, cols)
    ensures DrawColumns(pool, rows, cols, first + rest) == Success([col] + more)
  {
    assert (first + rest)[..rows] == first;
    assert (first + rest)[rows..] == rest;
  }

  /** `getSlotMachineArrangment(rows, cols, counts)`: expands the count table
      into the pool and draws `cols` columns of `rows` symbols each; a
      negative `rows` or `cols` runs its loop zero times. */
  function Generate(counts: Table, rows: int, cols: int, draws: seq<nat>): (r: Result<Arrangement>)
    requires |draws| >= Copies(rows) * Copies(cols)
    ensures r.Success? <==> cols <= 0 || Copies(rows) <= TotalCount(counts)
    ensures r.Failure? ==> r.error == PoolExhausted
    ensures r.Success? ==> |r.value| == Copies(cols)
    ensures r.Success? ==> forall c :: 0 <= c < |r.value| ==> |r.value[c]| == Copies(rows)
  {
    DrawCountIsProduct(Copies(rows), Copies(cols));
    DrawColumns(Expand(counts), Copies(rows), Copies(cols), draws)
  }

  /** Within one column a symbol occurs at most as often as its configured
      count, and every entry is a symbol with a positive count. */
  lemma GenerateRespectsCounts(counts: Table, rows: int, cols: int, draws: seq<nat>)
    requires IsMap(counts)
    requires |draws| >= Copies(rows) * Copies(cols)
    ensures var r := Generate(counts, rows, cols, draws);
      r.Success? ==> forall c, s :: 0 <= c < |r.value| ==>
        multiset(r.value[c])[s] <= Copies(Lookup(counts, s))
    ensures var r := Generate(counts, rows, cols, draws);
      r.Success? ==> forall c, k :: 0 <= c < |r.value| && 0 <= k < |r.value[c]| ==>
        Lookup(counts, r.value[c][k]) > 0
  {
    ExpandOccurrences(counts);
    DrawCountIsProduct(Copies(rows), Copies(cols));
    DrawColumnsFit(Expand(counts), Copies(rows), Copies(cols), draws);
    var r := Generate(counts, rows, cols, draws);
    if r.Success? {
      forall c, s | 0 <= c < |r.value|
        ensures multiset(r.value[c])[s] <= Copies(Lookup(counts, s))
      {
        assert FitsIn(r.value[c], Expand(counts));
      }
      forall c, k | 0 <= c < |r.value| && 0 <= k < |r.value[c]|
        ensures Lookup(counts, r.value[c][k]) > 0
      {
        assert FitsIn(r.value[c], Expand(counts));
        assert r.value[c][k] in multiset(r.value[c]);
      }
    }
  }

  /** Every grid of `cols` columns of `rows` symbols, each column within the
      configured counts, is the outcome of some sequence of draws. */
  lemma GenerateReachesEveryDrawableGrid(counts: Table, rows: int, cols: int, grid: Arrangement)
    requires |grid| == Copies(cols)
    requires Drawable(grid, Copies(rows), Expand(counts))
    ensures var ds := DrawsForAll(Expand(counts), grid);
      |ds| >= Copies(rows) * Copies(cols) && Generate(counts, rows, cols, ds) == Success(grid)
  {
    DrawColumnsReaches(Expand(counts), Copies(rows), grid);
    DrawCountIsProduct(Copies(rows), Copies(cols));
  }

  /** Columns draw from separate pools: with one "A" and one "B" configured,
      one row and two columns, both columns can show "A", so a grid with a
      winning line is possible. */
  lemma SameSymbolInEveryColumn()
    ensures Generate([Entry("A", 1), Entry("B", 1)], 1, 2, [0, 0]) == Success([["A"], ["A"]])
  {
    var counts := [Entry("A", 1), Entry("B", 1)];
    assert Repeat("A", 1) == ["A"] && Repeat("B", 1) == ["B"];
    var pool := Expand(counts);
    var one: seq<nat> := [0];
    var two: seq<nat> := [0, 0];
    var r1 := DrawColumns(pool, 1, 1, one);
    assert r1.value == [["A"]];
    var r2 := DrawColumns(pool, 1, 2, two);
    assert r2.value == [["A"], ["A"]];
  }
}
