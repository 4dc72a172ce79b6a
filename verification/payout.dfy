/** Payout evaluation: which of the bet lines show one symbol across every
    column, and what they pay. */
module Payout {
  import opened Symbols
  import opened Reels

  /** Rows `0 .. lines-1` can be read in every column, and column 0 exists
      whenever a line is read. */
  predicate Covers(grid: Arrangement, lines: int)
  {
    lines <= 0 || (|grid| > 0 && forall c :: 0 <= c < |grid| ==> lines <= |grid[c]|)
  }

  /** Line `line` (0-based) wins when every column holds column 0's symbol at that row. */
  predicate LineWins(grid: Arrangement, lines: int, line: nat)
    requires Covers(grid, lines) && line < lines
  {
    forall c :: 0 <= c < |grid| ==> grid[c][line] == grid[0][line]
  }

  /** What the winning lines of a spin pay, and which they are (1-based). */
  datatype RoundResult = RoundResult(winnings: int, winningLines: seq<int>)

  predicate StrictlyAscending(s: seq<int>)
  {
    forall i, j :: 0 <= i < j < |s| ==> s[i] < s[j]
  }

  /** Every entry is a 1-based line number no greater than `lines`. */
  predicate InRange(s: seq<int>, lines: int)
  {
    forall k :: 0 <= k < |s| ==> 1 <= s[k] <= lines
  }

  /** What a winning 1-based line `k` pays: the multiplier of column 0's
      symbol on that row, times the bet (nothing for a row the grid lacks). */
  function LineValue(grid: Arrangement, k: int, bet: int, values: Table): int
  {
    if |grid| > 0 && 1 <= k <= |grid[0]| then Lookup(values, grid[0][k - 1]) * bet else 0
  }

  /** Sum of what the listed 1-based lines pay. */
  function PayoutOf(grid: Arrangement, ls: seq<int>, bet: int, values: Table): int
  {
    if |ls| == 0 then 0
    else PayoutOf(grid, ls[..|ls| - 1], bet, values) + LineValue(grid, ls[|ls| - 1], bet, values)
  }

  /** `checkWinnings(columns, lines, bet, values)`: examines lines 0 to
      `lines - 1` in order, pays the multiplier of each winning line's symbol
      times the bet, and reports the winning lines 1-based. */
  function CheckWinnings(grid: Arrangement, lines: int, bet: int, values: Table): (r: RoundResult)
    requires Covers(grid, lines)
    ensures InRange(r.winningLines, lines)
    ensures StrictlyAscending(r.winningLines)
  {
    if lines <= 0 then RoundResult(0, [])
    else
      var prev := CheckWinnings(grid, lines - 1, bet, values);
      if LineWins(grid, lines, lines - 1) then
        RoundResult(prev.winnings + Lookup(values, grid[0][lines - 1]) * bet,
                    prev.winningLines + [lines])
      else prev
  }

  /** A line is reported exactly when it wins, so no line is reported
      exactly when no line wins. */
  lemma {:induction false} ReportsExactlyTheWinningLines(grid: Arrangement, lines: int, bet: int, values: Table)
    requires Covers(grid, lines)
    ensures var r := CheckWinnings(grid, lines, bet, values);
      forall line :: 0 <= line < lines ==> (line + 1 in r.winningLines <==> LineWins(grid, lines, line))
    ensures var r := CheckWinnings(grid, lines, bet, values);
      r.winningLines == [] <==> forall line :: 0 <= line < lines ==> !LineWins(grid, lines, line)
  {
    var r := CheckWinnings(grid, lines, bet, values);
    if lines > 0 {
      var prev := CheckWinnings(grid, lines - 1, bet, values);
      ReportsExactlyTheWinningLines(grid, lines - 1, bet, values);
      forall line | 0 <= line < lines
        ensures line + 1 in r.winningLines <==> LineWins(grid, lines, line)
      {
        assert lines !in prev.winningLines;
        if line < lines - 1 {
          assert LineWins(grid, lines, line) == LineWins(grid, lines - 1, line);
        }
      }
      if r.winningLines == [] {
        forall line | 0 <= line < lines
          ensures !LineWins(grid, lines, line)
        {
        }
      } else {
        var k := r.winningLines[0];
        assert k in r.winningLines && 1 <= k <= lines;
        assert LineWins(grid, lines, k - 1);
      }
    }
  }

  /** The winnings are the sum, over the reported lines, of the multiplier
      of each line's symbol times the bet. */
  lemma {:induction false} WinningsPayTheReportedLines(grid: Arrangement, lines: int, bet: int, values: Table)
    requires Covers(grid, lines)
    ensures var r := CheckWinnings(grid, lines, bet, values);
      r.winnings == PayoutOf(grid, r.winningLines, bet, values)
  {
    if lines > 0 {
      var r := CheckWinnings(grid, lines, bet, values);
      var prev := CheckWinnings(grid, lines - 1, bet, values);
      WinningsPayTheReportedLines(grid, lines - 1, bet, values);
      if LineWins(grid, lines, lines - 1) {
        assert r.winningLines[..|r.winningLines| - 1] == prev.winningLines;
        assert lines <= |grid[0]|;
      }
    }
  }

  /** Winnings scale with the bet: they are the bet times the winnings of a
      bet of 1, and the winning lines do not depend on the bet. */
  lemma {:induction false} WinningsLinearInBet(grid: Arrangement, lines: int, bet: int, values: Table)
    requires Covers(grid, lines)
    ensures CheckWinnings(grid, lines, bet, values).winnings == bet * CheckWinnings(grid, lines, 1, values).winnings
    ensures CheckWinnings(grid, lines, bet, values).winningLines == CheckWinnings(grid, lines, 1, values).winningLines
  {
    if lines > 0 {
      WinningsLinearInBet(grid, lines - 1, bet, values);
      if LineWins(grid, lines, lines - 1) {
        var m := Lookup(values, grid[0][lines - 1]);
        var w1 := CheckWinnings(grid, lines - 1, 1, values).winnings;
        FactorOutBet(bet, w1, m);
      }
    }
  }

  /** Adding a line paying `m` per unit of bet to winnings of `w` per unit. */
  lemma FactorOutBet(bet: int, w: int, m: int)
    ensures bet * w + m * bet == bet * (w + m)
  {
  }

  /** A bet of 0 wins nothing, whatever the grid. */
  lemma ZeroBetWinsNothing(grid: Arrangement, lines: int, values: Table)
    requires Covers(grid, lines)
    ensures CheckWinnings(grid, lines, 0, values).winnings == 0
  {
    WinningsLinearInBet(grid, lines, 0, values);
  }

  /** With non-negative multipliers and a non-negative bet the winnings are
      never negative. */
  lemma {:induction false} WinningsNonNegative(grid: Arrangement, lines: int, bet: int, values: Table)
    requires Covers(grid, lines)
    ensures bet >= 0 && NonNegative(values) ==> CheckWinnings(grid, lines, bet, values).winnings >= 0
  {
    if lines > 0 && bet >= 0 && NonNegative(values) {
      WinningsNonNegative(grid, lines - 1, bet, values);
      var m := Lookup(values, grid[0][lines - 1]);
      assert m * bet >= 0;
    }
  }
}
