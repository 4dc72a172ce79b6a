/** Reel symbols and the machine's two symbol tables (symbol counts and
    payout multipliers), each a `std::map<string, int>` in the C++ program. */
module Symbols {

  /** A reel symbol such as "A". */
  type Symbol = string

  /** One key/value pair of a symbol table. */
  datatype Entry = Entry(symbol: Symbol, value: int)

  /** A `std::map<string, int>`, seen as the sequence its iteration visits. */
  type Table = seq<Entry>

  /** Lexicographic order on strings: the key order of `std::map<string, int>`. */
  predicate Less(a: Symbol, b: Symbol)
  {
    if |a| == 0 then |b| > 0
    else if |b| == 0 then false
    else if a[0] != b[0] then a[0] < b[0]
    else Less(a[1..], b[1..])
  }

  lemma {:induction false} LessIrreflexive(a: Symbol)
    ensures !Less(a, a)
  {
    if |a| > 0 {
      LessIrreflexive(a[1..]);
    }
  }

  /** A table is the iteration sequence of a map: keys strictly ascending. */
  predicate IsMap(t: Table)
  {
    forall i, j :: 0 <= i < j < |t| ==> Less(t[i].symbol, t[j].symbol)
  }

  /** Keys of a map are distinct. */
  lemma MapKeysDistinct(t: Table, i: nat, j: nat)
    requires IsMap(t)
    requires i < j < |t|
    ensures t[i].symbol != t[j].symbol
  {
    LessIrreflexive(t[i].symbol);
  }

  /** Every value of the table is non-negative. */
  predicate NonNegative(t: Table)
  {
    forall i :: 0 <= i < |t| ==> t[i].value >= 0
  }

  /** `m[s]`: the value stored under `s`; a missing key reads as 0, because
      `map::operator[]` inserts a value-initialised int. */
  function Lookup(t: Table, s: Symbol): (v: int)
    ensures v != 0 ==> exists i :: 0 <= i < |t| && t[i] == Entry(s, v)
    ensures (forall i :: 0 <= i < |t| ==> t[i].symbol != s) ==> v == 0
    ensures NonNegative(t) ==> v >= 0
  {
    if |t| == 0 then 0
    else if t[0].symbol == s then t[0].value
    else Lookup(t[1..], s)
  }

  /** In a map, looking up a stored key gives the value stored with it. */
  lemma {:induction false} LookupFindsEntry(t: Table, i: nat)
    requires IsMap(t)
    requires i < |t|
    ensures Lookup(t, t[i].symbol) == t[i].value
  {
    if i > 0 {
      MapKeysDistinct(t, 0, i);
      assert t[1..][i - 1] == t[i];
      LookupFindsEntry(t[1..], i - 1);
    }
  }

  /** How many times `for (int i = 0; i < n; i++)` runs: n when positive, else 0. */
  function Copies(n: int): nat
  {
    if n > 0 then n else 0
  }

  /** Total number of symbols in the pool a count table expands to. */
  function TotalCount(t: Table): nat
  {
    if |t| == 0 then 0 else Copies(t[0].value) + TotalCount(t[1..])
  }

  /** `n` copies of `s` (none when `n` is not positive). */
  function Repeat(s: Symbol, n: int): (r: seq<Symbol>)
    ensures |r| == Copies(n)
    ensures forall k :: 0 <= k < |r| ==> r[k] == s
  {
    if n <= 0 then [] else [s] + Repeat(s, n - 1)
  }

  lemma {:induction false} RepeatOccurrences(s: Symbol, n: int, x: Symbol)
    ensures multiset(Repeat(s, n))[x] == if x == s then Copies(n) else 0
  {
    if n > 0 {
      RepeatOccurrences(s, n - 1, x);
      assert Repeat(s, n) == [s] + Repeat(s, n - 1);
    }
  }

  /** The sampling pool of one column: every symbol of the count table,
      repeated `count` times, in the table's iteration order. */
  function Expand(counts: Table): (pool: seq<Symbol>)
    ensures |pool| == TotalCount(counts)
  {
    if |counts| == 0 then []
    else Repeat(counts[0].symbol, counts[0].value) + Expand(counts[1..])
  }

  /** The pool holds each symbol exactly as often as its count says (none for
      a symbol that is absent or has a count below 1), so a symbol is in the
      pool exactly when its count is positive. */
  lemma {:induction false} ExpandOccurrences(counts: Table)
    requires IsMap(counts)
    ensures forall s :: multiset(Expand(counts))[s] == Copies(Lookup(counts, s))
    ensures forall s :: s in Expand(counts) <==> Lookup(counts, s) > 0
  {
    if |counts| > 0 {
      var rest := counts[1..];
      assert IsMap(rest) by {
        forall i, j | 0 <= i < j < |rest|
          ensures Less(rest[i].symbol, rest[j].symbol)
        {
          assert rest[i] == counts[i + 1] && rest[j] == counts[j + 1];
        }
      }
      ExpandOccurrences(rest);
      forall s
        ensures multiset(Expand(counts))[s] == Copies(Lookup(counts, s))
      {
        RepeatOccurrences(counts[0].symbol, counts[0].value, s);
        if s == counts[0].symbol {
          forall i | 0 <= i < |rest|
            ensures rest[i].symbol != s
          {
            MapKeysDistinct(counts, 0, i + 1);
          }
        }
      }
    }
    forall s
      ensures s in Expand(counts) <==> Lookup(counts, s) > 0
    {
      assert s in Expand(counts) <==> multiset(Expand(counts))[s] > 0;
    }
  }
}
