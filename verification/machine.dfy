/** The slot machine itself: its configuration, the acceptance rules the
    prompts enforce, one spin (`spinMachine`) and the session loop's balance
    update (`main`). */
module Machine {
  import opened Outcomes
  import opened Symbols
  import opened Reels
  import opened Payout

  /** The fields `MAX_LINES`, `MIN_BET`, `MAX_BET`, `ROWS`, `COLUMNS` and the
      two symbol tables of the `SlotMachine` class. */
  datatype Config = Config(
    maxLines: int,
    minBet: int,
    maxBet: int,
    rows: int,
    columns: int,
    symbolCount: Table,
    symbolMultiplier: Table)

  /** Smallest deposit `getDeposit` accepts. */
  const MinDeposit: int := 10

  /** `getDeposit` rejects an amount below the minimum and asks again. */
  predicate DepositAccepted(amount: int)
  {
    amount >= MinDeposit
  }

  /** `getNumberOfLines` rejects fewer than one line or more than `MAX_LINES`. */
  predicate LinesAccepted(cfg: Config, lines: int)
  {
    1 <= lines <= cfg.maxLines
  }

  /** `getPlayersBet` rejects a per-line bet outside `[MIN_BET, MAX_BET]`. */
  predicate BetAccepted(cfg: Config, bet: int)
  {
    cfg.minBet <= bet <= cfg.maxBet
  }

  /** The stake of a round: the per-line bet on every line. */
  function TotalBet(bet: int, lines: int): int
  {
    bet * lines
  }

  /** `spinMachine` refuses a bet whose total exceeds the balance. */
  predicate Affordable(bet: int, lines: int, balance: int)
  {
    TotalBet(bet, lines) <= balance
  }

  /** What `checkWinnings` relies on: every line a player may bet on is a
      row of the grid, and there is a column to read. */
  predicate Playable(cfg: Config)
  {
    cfg.maxLines <= cfg.rows && cfg.columns >= 1
  }

  /** The pool holds enough symbols to fill a column. */
  predicate Sampleable(cfg: Config)
  {
    cfg.rows <= TotalCount(cfg.symbolCount)
  }

  /** One call of `spinMachine` with the player's answers already accepted
      by the prompts: an unaffordable bet is refused; otherwise the machine
      is spun, the bet lines are evaluated, and the change of balance,
      winnings minus the total bet, is returned. */
  function Spin(cfg: Config, balance: int, lines: int, bet: int, draws: seq<nat>): (r: Result<int>)
    requires Playable(cfg) && LinesAccepted(cfg, lines) && BetAccepted(cfg, bet)
    requires |draws| >= Copies(cfg.rows) * Copies(cfg.columns)
    ensures r == Failure(InsufficientFunds) <==> !Affordable(bet, lines, balance)
    ensures r == Failure(PoolExhausted) <==> Affordable(bet, lines, balance) && !Sampleable(cfg)
    ensures r.Success? && bet >= 0 && NonNegative(cfg.symbolMultiplier) ==>
      r.value >= -TotalBet(bet, lines) && balance + r.value >= 0
    ensures r.Success? ==>
      var g := Generate(cfg.symbolCount, cfg.rows, cfg.columns, draws);
      g.Success? && Covers(g.value, lines) &&
      r.value == CheckWinnings(g.value, lines, bet, cfg.symbolMultiplier).winnings - TotalBet(bet, lines)
  {
    if TotalBet(bet, lines) > balance then Failure(InsufficientFunds)
    else
      var spun := Generate(cfg.symbolCount, cfg.rows, cfg.columns, draws);
      if spun.Failure? then Failure(spun.error)
      else
        var grid := spun.value;
        assert Covers(grid, lines);
        WinningsNonNegative(grid, lines, bet, cfg.symbolMultiplier);
        var result := CheckWinnings(grid, lines, bet, cfg.symbolMultiplier);
        Success(result.winnings - TotalBet(bet, lines))
  }

  /** A successful spin changes the balance by what the reported lines pay,
      each its symbol's multiplier times the bet, minus the total bet. */
  lemma SpinPaysReportedLines(cfg: Config, balance: int, lines: int, bet: int, draws: seq<nat>)
    requires Playable(cfg) && LinesAccepted(cfg, lines) && BetAccepted(cfg, bet)
    requires |draws| >= Copies(cfg.rows) * Copies(cfg.columns)
    ensures var r := Spin(cfg, balance, lines, bet, draws);
      r.Success? ==>
        var g := Generate(cfg.symbolCount, cfg.rows, cfg.columns, draws);
        g.Success? && Covers(g.value, lines) &&
        var reported := CheckWinnings(g.value, lines, bet, cfg.symbolMultiplier).winningLines;
        r.value == PayoutOf(g.value, reported, bet, cfg.symbolMultiplier) - TotalBet(bet, lines)
  {
    var r := Spin(cfg, balance, lines, bet, draws);
    if r.Success? {
      var g := Generate(cfg.symbolCount, cfg.rows, cfg.columns, draws);
      WinningsPayTheReportedLines(g.value, lines, bet, cfg.symbolMultiplier);
    }
  }

  /** The answers the player gives for one spin, and the `rand()` values it consumes. */
  datatype Round = Round(lines: int, bet: int, draws: seq<nat>)

  /** The prompts accepted the round's answers, and enough draws are supplied. */
  predicate RoundAccepted(cfg: Config, round: Round)
  {
    && LinesAccepted(cfg, round.lines)
    && BetAccepted(cfg, round.bet)
    && |round.draws| >= Copies(cfg.rows) * Copies(cfg.columns)
  }

  /** The loop of `main`: while the balance is positive, play the next round
      and add its result to the balance; the player quits when the rounds run
      out. A refused bet leaves the balance as it was. */
  function Play(cfg: Config, balance: int, rounds: seq<Round>): (final: int)
    requires Playable(cfg) && Sampleable(cfg)
    requires forall i :: 0 <= i < |rounds| ==> RoundAccepted(cfg, rounds[i])
    ensures balance >= 0 && cfg.minBet >= 0 && NonNegative(cfg.symbolMultiplier) ==> final >= 0
    decreases |rounds|
  {
    if balance <= 0 || |rounds| == 0 then balance
    else
      var round := rounds[0];
      assert RoundAccepted(cfg, round);
      assert forall i :: 0 <= i < |rounds[1..]| ==> RoundAccepted(cfg, rounds[1..][i]) by {
        forall i | 0 <= i < |rounds[1..]|
          ensures RoundAccepted(cfg, rounds[1..][i])
        {
          assert rounds[1..][i] == rounds[i + 1];
        }
      }
      match Spin(cfg, balance, round.lines, round.bet, round.draws)
      case Success(delta) => Play(cfg, balance + delta, rounds[1..])
      case Failure(_) => Play(cfg, balance, rounds[1..])
  }

  /** Whatever the lines chosen, some accepted per-line bet is affordable
      exactly when the smallest one is. When none is, `spinMachine` keeps
      asking for a bet and never returns. */
  lemma SomeBetAffordable(cfg: Config, lines: int, balance: int)
    requires LinesAccepted(cfg, lines)
    ensures (exists bet :: BetAccepted(cfg, bet) && Affordable(bet, lines, balance))
      <==> cfg.minBet <= cfg.maxBet && Affordable(cfg.minBet, lines, balance)
  {
    if cfg.minBet <= cfg.maxBet && Affordable(cfg.minBet, lines, balance) {
      assert BetAccepted(cfg, cfg.minBet);
    }
    forall bet | BetAccepted(cfg, bet) && Affordable(bet, lines, balance)
      ensures Affordable(cfg.minBet, lines, balance)
    {
      MultiplyMonotone(cfg.minBet, bet, lines);
    }
  }

  /** With `main`'s configuration, a balance of 3 and 5 lines chosen, no
      accepted bet is affordable: `spinMachine` asks for a bet forever, since
      it never asks for the lines again. */
  lemma NoAffordableBetOnFiveLines()
    ensures LinesAccepted(MainConfig, 5)
    ensures !exists bet :: BetAccepted(MainConfig, bet) && Affordable(bet, 5, 3)
  {
    SomeBetAffordable(MainConfig, 5, 3);
  }

  lemma MultiplyMonotone(a: int, b: int, n: int)
    requires a <= b && n >= 1
    ensures a * n <= b * n
  {
  }

  /** The configuration `main` sets up. */
  const MainConfig: Config := Config(
    5, 1, 1000, 5, 5,
    [Entry("A", 8), Entry("B", 19), Entry("C", 38), Entry("D", 67)],
    [Entry("A", 100), Entry("B", 60), Entry("C", 28), Entry("D", 4)])

  /** `main`'s symbol tables list their symbols in ascending order, once each. */
  lemma MainTablesAreMaps()
    ensures IsMap(MainConfig.symbolCount) && IsMap(MainConfig.symbolMultiplier)
  {
    assert Less("A", "B") && Less("A", "C") && Less("A", "D");
    assert Less("B", "C") && Less("B", "D") && Less("C", "D");
  }

  /** `main`'s configuration meets every assumption of the model: its tables
      are maps, every line is a row, a column can always be filled, and no
      bet or multiplier is negative. */
  lemma MainConfigIsSound()
    ensures IsMap(MainConfig.symbolCount) && IsMap(MainConfig.symbolMultiplier)
    ensures Playable(MainConfig) && Sampleable(MainConfig)
    ensures MainConfig.minBet >= 0 && NonNegative(MainConfig.symbolMultiplier)
    ensures MainConfig.maxLines == MainConfig.rows == 5 && TotalCount(MainConfig.symbolCount) == 132
  {
    MainTablesAreMaps();
    assert TotalCount(MainConfig.symbolCount) == 132;
  }

  /** Starting from an accepted deposit, `main`'s balance never goes
      negative, whatever the spins show. */
  lemma MainBalanceNeverNegative(deposit: int, rounds: seq<Round>)
    requires DepositAccepted(deposit)
    requires forall i :: 0 <= i < |rounds| ==> RoundAccepted(MainConfig, rounds[i])
    ensures Play(MainConfig, deposit, rounds) >= 0
  {
    MainConfigIsSound();
  }

  /** Two columns showing A, A, B: all three lines win, paying the bet of 10
      times the multipliers 100, 100 and 60. */
  lemma ThreeWinningLines()
    ensures CheckWinnings([["A", "A", "B"], ["A", "A", "B"]], 3, 10, MainConfig.symbolMultiplier)
      == RoundResult(2600, [1, 2, 3])
  {
  }
}
