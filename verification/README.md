# Slot machine model

A Dafny model of the console slot machine in `SlotMachine.c++`. It covers:

- **Reel generation.** `getSlotMachineArrangment` expands the symbol count
  table into a pool. Each column then draws `rows` symbols from its own copy
  of the pool, without replacement.
- **Line evaluation.** `checkWinnings` finds the winning lines and what they pay.
- **Prompt rules.** The acceptance rules of the deposit, lines and bet prompts.
- **One spin.** `spinMachine` checks affordability and returns the balance change.
- **The session loop.** `main` adds each spin's result to the balance.

The model has five modules:

- `Outcomes`: the `Result` type and the two ways a step can fail.
- `Symbols`: the symbol tables and the pool expansion.
  - A `std::map<string, int>` is an association list with strictly ascending
    keys. That is the map's iteration order.
  - `operator[]` on a missing key reads 0.
- `Reels`: the sampling of columns.
  - `rand()` is a parameter: a sequence of natural numbers, consumed column by
    column, top row first.
  - Each draw `d` selects index `d % |remaining|`, as at line 126 of the source.
- `Payout`: `checkWinnings` and an independent reference sum of what the
  reported lines pay.
- `Machine`: the configuration, the prompt predicates, `spinMachine`, the
  loop of `main`, and `main`'s concrete configuration.

Every column starts from a fresh copy of the whole pool (line 123). So the
same symbol can appear in the same row of every column, which is what makes
a winning line possible. For example, with one `A` and one `B` configured,
one row and two columns, the grid `[["A"], ["A"]]` is a possible outcome
(`Reels.SameSymbolInEveryColumn`). A reading under which sampling is without
replacement across the whole grid would forbid that grid. The model follows
the code.

No separate validation of the symbol tables exists in the source. The model
states its assumptions as preconditions instead:

- the count table is a map (`IsMap`);
- every line is a row and there is a column (`Machine.Playable`);
- the pool fills a column (`Machine.Sampleable`).

`Machine.MainConfigIsSound` proves that `main`'s configuration meets them.

With `main`'s configuration, a player with a balance of 3 who picks 5 lines
cannot place any accepted bet, since the minimum total stake is 5.
`spinMachine` then asks for a bet forever, because it never asks for the
lines again (`Machine.NoAffordableBetOnFiveLines`).

## Model

| member | source | states |
|---|---|---|
| Symbols.Lookup | SlotMachine.c++:185 | `values[symbol]`: a non-zero result is the value stored under that symbol; a missing symbol reads 0; a table without negative values gives no negative result |
| Symbols.LookupFindsEntry | SlotMachine.c++:185 | in a map, looking up a stored symbol gives exactly the value stored with it |
| Symbols.Expand | SlotMachine.c++:110-117 | the pool has as many symbols as the counts add up to, where a count below 1 adds none |
| Symbols.ExpandOccurrences | SlotMachine.c++:110-117 | every symbol occurs in the pool exactly as often as its count says (zero when absent or not positive); a symbol is in the pool iff its count is positive |
| Reels.RemoveAt | SlotMachine.c++:128 | `erase` at index `i` leaves a pool one element shorter |
| Reels.RemoveAtShifts | SlotMachine.c++:128 | after the `erase`, the elements before `i` stay in place and the ones after it move down by one |
| Reels.RemoveAtOccurrences | SlotMachine.c++:127-128 | the `erase` removes exactly one occurrence of the symbol just drawn and nothing else |
| Reels.DrawColumn | SlotMachine.c++:122-130 | a column of `rows` symbols is drawn iff the pool holds at least `rows` symbols; otherwise the draw fails because the pool ran out (division by zero in the source) |
| Reels.DrawColumnFits | SlotMachine.c++:124-130 | sampling without replacement: a drawn column uses each pool element at most as often as the pool holds it |
| Reels.DrawColumnReaches | SlotMachine.c++:124-130 | every column that fits in the pool is produced by some sequence of draws, so the sampler can reach every such column |
| Reels.DrawColumns | SlotMachine.c++:119-133 | `cols` columns of `rows` symbols each; this succeeds iff there are no columns or the pool fills one column |
| Reels.DrawColumnsFit | SlotMachine.c++:120-132 | every column, drawn from its own fresh copy of the pool, fits in the pool |
| Reels.ColumnsFromOwnDraws | SlotMachine.c++:120-132 | column `c` is the column drawn from the full pool with the `rows` draws after the first `c * rows`; no column sees an earlier column's removals |
| Reels.DrawColumnsReaches | SlotMachine.c++:119-133 | every grid whose columns each fit in the pool is the outcome of some draws |
| Reels.Generate | SlotMachine.c++:108-134 | the arrangement has `cols` columns of `rows` symbols (none for a negative count); it fails iff there are columns and the pool is smaller than `rows` |
| Reels.GenerateRespectsCounts | SlotMachine.c++:108-134 | within a column no symbol occurs more often than its configured count, and only symbols with a positive count appear |
| Reels.GenerateReachesEveryDrawableGrid | SlotMachine.c++:108-134 | every grid of the right shape whose columns respect the counts is a possible arrangement |
| Reels.SameSymbolInEveryColumn | SlotMachine.c++:120-123 | with one A and one B, one row and two columns, the draws 0, 0 give `[["A"], ["A"]]`: each column draws from the whole pool |
| Payout.CheckWinnings | SlotMachine.c++:166-190 | the reported lines are 1-based numbers within `1..lines`, in strictly ascending order |
| Payout.ReportsExactlyTheWinningLines | SlotMachine.c++:170-187 | line `l + 1` is reported iff every column shows column 0's symbol in row `l`; nothing is reported iff no line wins |
| Payout.WinningsPayTheReportedLines | SlotMachine.c++:183-186 | the winnings equal the sum, over the reported lines, of that line's symbol multiplier times the bet |
| Payout.WinningsLinearInBet | SlotMachine.c++:185 | winnings are the bet times the winnings of a bet of 1, and the winning lines do not depend on the bet |
| Payout.ZeroBetWinsNothing | SlotMachine.c++:185 | a bet of 0 wins nothing on any grid |
| Payout.WinningsNonNegative | SlotMachine.c++:183-186 | with a non-negative bet and non-negative multipliers the winnings are never negative |
| Machine.DepositAccepted | SlotMachine.c++:35 | a deposit is accepted iff it is at least 10 |
| Machine.LinesAccepted | SlotMachine.c++:60 | a number of lines is accepted iff it lies in `1..MAX_LINES` |
| Machine.BetAccepted | SlotMachine.c++:85 | a per-line bet is accepted iff it lies in `MIN_BET..MAX_BET` |
| Machine.Affordable | SlotMachine.c++:204-205 | a bet is affordable iff the bet times the lines does not exceed the balance |
| Machine.Spin | SlotMachine.c++:197-222 | an unaffordable bet (total above the balance) is refused, and only then; a too-small pool fails, and only for an affordable bet; with a non-negative bet and non-negative multipliers, a successful spin loses at most the total bet and never takes the balance below 0; a successful spin's result is the winnings `checkWinnings` computes on the generated grid minus the total bet |
| Machine.SpinPaysReportedLines | SlotMachine.c++:215-221 | a successful spin changes the balance by the sum, over the reported lines, of each line's multiplier times the bet, minus the bet times the lines |
| Machine.Play | SlotMachine.c++:246-261 | starting from a non-negative balance, with non-negative bets and multipliers, the balance after every round is non-negative |
| Machine.SomeBetAffordable | SlotMachine.c++:199-213 | for any accepted number of lines, some accepted bet is affordable iff the minimum bet is |
| Machine.NoAffordableBetOnFiveLines | SlotMachine.c++:201-213 | with the configured bounds, a balance of 3 and 5 lines, no accepted bet is affordable, so the bet prompt never ends |
| Machine.MainTablesAreMaps | SlotMachine.c++:236-243 | both configured tables list each symbol once, in ascending order |
| Machine.MainConfigIsSound | SlotMachine.c++:230-243 | the configuration of `main` has map tables, at most 5 lines over exactly 5 rows and at least one column, a pool of 132 symbols that fills a column, and a non-negative minimum bet and multipliers |
| Machine.MainBalanceNeverNegative | SlotMachine.c++:246-261 | from any accepted deposit (at least 10), `main`'s balance never goes negative, whatever the spins show |
| Machine.ThreeWinningLines | SlotMachine.c++:166-190 | two columns showing A, A, B with a bet of 10 on 3 lines win on lines 1, 2 and 3 and pay 2600 |

## Left out

- Console input and output: the prompts and their messages are not modelled,
  and neither is `printSlotMachine`. The prompts' acceptance rules are the
  predicates `DepositAccepted`, `LinesAccepted` and `BetAccepted`. A prompt's
  repeated asking is modelled by taking only accepted answers.
- `cin.fail()`: input that is not a number is just another rejected answer,
  so it is not modelled separately.
- Randomness: `rand()` is an input sequence of arbitrary naturals. Its
  distribution and the modulo bias of `rand() % n` are not modelled.
  `rand()` returns values up to `RAND_MAX` and the program never calls
  `srand`. The reachability lemmas (`Reels.DrawColumnReaches`,
  `Reels.DrawColumnsReaches`, `Reels.GenerateReachesEveryDrawableGrid`) use
  a draw equal to the index itself. So they hold for the program only for
  pools of at most `RAND_MAX + 1` symbols; `main`'s pool has 132. They speak
  of arbitrary draws, not of the fixed sequence one unseeded run produces.
- Integer width: `int` arithmetic is unbounded in the model. The source's
  32-bit overflow of `bet * lines`, of the winnings and of the balance is
  not modelled; with `main`'s bounds these stay far below the limit for
  realistic balances.
- Character order: `Less` compares code points, like `std::string`'s
  comparison for the ASCII symbol names used.
- Reels.DrawColumn: an empty pool during a draw is undefined behaviour in the
  source (division by zero). The model reports it as the failure
  `PoolExhausted`.
- Payout.CheckWinnings: it requires every column to have at least `lines`
  rows. The source reads a row of a later column only when every earlier
  column matched, so it tolerates some shorter columns this precondition
  excludes.
- Machine.Spin: the source keeps asking for a bet while the bet is
  unaffordable. The model returns `InsufficientFunds` instead, and `Play`
  moves on to the next round with the balance unchanged. So the model lets
  the next round choose other lines, which the source does not allow.
- Machine.Play: the player's "q" to quit is modelled by the sequence of
  rounds running out.
- The commented-out printing of the winning lines (line 219) has no effect and
  is not modelled.
