# crypto-portfolio, modelled in Dafny

The repository holds two versions of a script that values a Binance account
and writes the result to a Google sheet:

- `main.py` is the current version. It reads offline holdings, target
  allocations and the invested amount from `config.json`. It merges the
  exchange balances with the offline holdings and values every non-zero
  balance. Each asset gets its share of the portfolio, its gap to the
  target and the amount to trade to close it. A rebalancing notification is
  flagged when some asset's gap exceeds a tenth of its target. Last, it lays
  out an overview grid: summary rows, a header, then one row per asset.
- `crypto-portfolio.py` is the older version. It reads offline holdings and
  investments from CSV files. It values the balances the same way and gives
  each row its share of the portfolio. Its grid lists the asset rows first
  and the summary after.

The model has three modules, one per file:

- `Portfolio` (`portfolio.dfy`) holds what both scripts share:
  - the balance and asset-row types and the sheet cells;
  - the specification of the merge-and-valuation loop: `Collected`,
    `KeptIndices`, `Lookups`, `RunningTotal` and `RunningManaged`, each over
    the first `n` balances;
  - the totals over rows: `TotalValue`, `ManagedValue` and `SumAllocs`;
  - the lemmas about all of these.
- `MainPipeline` (`main_pipeline.dfy`) models `main.py`.
- `LegacyPipeline` (`legacy_pipeline.dfy`) models `crypto-portfolio.py`.

Each script loop is an imperative method with a `for` loop, proved against
a specification function:

- the CSV loop, `ReadOfflineAssets`;
- the valuation loop, `CollectAssets`;
- the allocation loop, `AllocateRows` / `ComputeAllocs`;
- the investments loop, `SumInvested`.

The in-place rewrite `assets[i] = [...]` rewrites the row at index `i` of
the `assets` sequence. Python exceptions raised once the inputs are in hand
become `Err` values of a `Result`:

- a division by a zero total (main.py:65, crypto-portfolio.py:53);
- a division by a zero price for a targeted asset (main.py:70);
- reading `target_alloc` while it is still unbound (main.py:76);
- a division by a zero investment (main.py:93, crypto-portfolio.py:65).

Behaviour of the scripts worth noting:

- **No sorting.** Asset rows appear in the order of the exchange balances
  (main.py:34-54).
- **No validation of targets.** Nothing checks that the targets add up to 1,
  and no price is rejected (main.py:59-86).
- **Allocs are shares of the whole portfolio.** Each `alloc` is a row's
  value over the whole total, including untargeted holdings, so the allocs
  of all rows add up to 1 (`RewrittenAllocsSumToOne`). The amount change
  closes the gap to `target * alloc_total`, where `alloc_total` is the value
  of the targeted assets only. With an untargeted holding, the diff and the
  trade can therefore point in opposite directions (`TradeCanOpposeDiff`).
  When every asset is targeted and the price and the total are positive,
  they agree (`TradeFollowsDiffWhenAllTargeted`). Offline amounts may be
  negative, so the total need not be positive.
- **A zero total raises.** The alloc divides by the total, so a portfolio
  that keeps at least one row, but whose rows add up to zero value, ends in
  a division by zero (main.py:65). With no row kept the loop does not run
  and nothing is divided.
- **`target_alloc` carries over to untargeted rows.** The untargeted branch
  assigns a differently named variable (`target_allocation`), so an
  untargeted row shows the target of the latest targeted row before it.
  When the first row is untargeted, the band test reads `target_alloc`
  unbound. `TargetAfter` gives the variable's value after `n` iterations.
- **Header text.** The value column's header reads `USD Value`
  (main.py:100).
- **Fixed band.** The band is a tenth of the target, a constant in the code
  (main.py:76).

## Model

| member | source | states |
|---|---|---|
| Portfolio.RunningTotalIsTotalValue | main.py:52-53 | the running `total_usd_value` equals the summed value (price times amount) of the rows the loop appends |
| Portfolio.RunningManagedIsManagedValue | main.py:56-57 | the running `alloc_total` equals the summed value of the appended rows whose asset has a target |
| Portfolio.KeptIndicesAreTheNonZeroBalances | main.py:38-45 | the kept balances are in range and strictly increasing, and a balance is kept iff its free + locked (+ offline) amount is non-zero |
| Portfolio.CollectedFollowsKeptIndices | main.py:34-54 | row k of `assets` is the priced row of the k-th kept balance, in the balances' order |
| Portfolio.CollectedRowsAreNonZeroAndPriced | main.py:38-54 | every row has a non-zero amount taken from some balance, price 1 for USDT and the ticker price otherwise |
| Portfolio.LookupsAreTheKeptNonUsdtAssets | main.py:44-50 | the ticker is asked about exactly the non-USDT assets of kept balances, and never about USDT |
| Portfolio.CollectedDependsOnlyOnLookups | main.py:47-54 | two price feeds that agree on the looked-up symbols give the same rows |
| Portfolio.OfflineOnlyAssetsAreIgnored | crypto-portfolio.py:17-36 | offline holdings for assets without an exchange balance change neither the rows nor the kept set |
| Portfolio.ManagedValueBounded | main.py:53-57 | with non-negative row values, 0 <= `alloc_total` <= `total_usd_value` |
| Portfolio.AllocsSumToOne | crypto-portfolio.py:52-53 | when each alloc is a row's value over the total value of the rows, the allocs add up to 1 |
| MainPipeline.CollectAssets | main.py:29-57 | the valuation loop builds `Collected`, and its accumulators are the total and the managed value of those rows |
| MainPipeline.TargetAfterIsLatestTarget | main.py:67-74 | `target_alloc` is unbound iff no row so far is targeted, and otherwise holds the target of the latest targeted row |
| MainPipeline.RewriteRowMeaning | main.py:60-86 | one iteration raises iff the total is zero, the asset is targeted at price 0, or it is untargeted with `target_alloc` unbound (in that order); otherwise the row keeps asset, price and amount, alloc = value / total, diff = target - alloc, and amount change × price + value = target × `alloc_total` (untargeted: diff and change 0, carried target shown) |
| MainPipeline.ErrorPersists | main.py:59-86 | an exception in some iteration is the outcome of the whole loop |
| MainPipeline.AllocationErrors | main.py:59-77 | the loop raises iff there is a row and the total is zero, the first row is untargeted, or some targeted row has price 0, with that precedence |
| MainPipeline.AllocationRows | main.py:59-86 | when the loop completes, every row is the rewrite of its priced row with the `target_alloc` of that iteration, and the flag is set iff some row breaches its band |
| MainPipeline.AllocateRows | main.py:59-86 | the imperative loop's outcome is exactly `AllocationAfter` over all rows |
| MainPipeline.UntargetedRowsNeverBreach | main.py:67-77 | with non-negative targets an untargeted row never raises the flag |
| MainPipeline.RewrittenAllocsSumToOne | main.py:64-65 | when the total is the rows' value, the alloc column adds up to 1 |
| MainPipeline.TradeFollowsDiffWhenAllTargeted | main.py:65-70 | when `alloc_total` is the whole total and the price and the total are positive, the amount change has the sign of the alloc diff |
| MainPipeline.TradeCanOpposeDiff | main.py:65-70 | with an untargeted holding an asset can be under target by its alloc diff and still have a negative amount change |
| MainPipeline.Overview | main.py:89-105 | the grid is investment, current value, percentage, timestamp, a blank row, the header, then each asset row's cells; it raises iff nothing was invested |
| MainPipeline.GridShowsKeptBalances | main.py:97-105 | the grid's asset rows name the kept balances in the balances' order, with their combined amounts |
| MainPipeline.FlagMatchesGrid | main.py:76-86 | some row breaches its band iff some asset row of the grid shows an alloc diff beyond a tenth of its target |
| MainPipeline.Run | main.py:29-113 | the script's error conditions with their precedence; on success a grid of 6 + kept rows: investment, current value, percentage, timestamp, blank and header rows in place, then for each kept balance in order the cells of the allocation loop's row, which is the rewrite of its priced row; the flag is the loop's flag, and holds iff some grid row is out of band |
| LegacyPipeline.OfflineMapKeys | crypto-portfolio.py:22-24 | the offline map has exactly the keys named in the CSV |
| LegacyPipeline.OfflineMapLastRowWins | crypto-portfolio.py:22-24 | a key holds the amount of the last CSV row that names it |
| LegacyPipeline.ReadOfflineAssets | crypto-portfolio.py:20-24 | the CSV loop builds `OfflineMap` of all rows |
| LegacyPipeline.CollectAssets | crypto-portfolio.py:26-48 | the valuation loop builds `Collected`, and its accumulator is the total value of the rows |
| LegacyPipeline.ComputeAllocs | crypto-portfolio.py:50-54 | the loop raises iff there is a row and the total is zero; otherwise each row gains value and alloc = value / total, and the allocs add up to 1 when the total is the rows' value |
| LegacyPipeline.InvestedOfConcat | crypto-portfolio.py:59-61 | the invested total of two runs of rows is the sum of their totals |
| LegacyPipeline.SumInvested | crypto-portfolio.py:57-61 | the investments loop returns the sum of column 0 |
| LegacyPipeline.Overview | crypto-portfolio.py:62-67 | the grid is the asset rows, a blank row, investment, current value, percentage and timestamp; it raises iff nothing was invested |
| LegacyPipeline.GridShowsKeptBalances | crypto-portfolio.py:26-54 | the grid's asset rows name the kept balances in order, with their combined amounts |
| LegacyPipeline.Run | crypto-portfolio.py:10-67 | the script raises iff the total is zero with some row, or nothing was invested (in that order); on success the grid holds, for each kept balance in order, its asset, price, amount, value and value over the total, then the blank, investment, current value, percentage and timestamp rows |

## Left out

- The Binance client (`account()`, `ticker_price`), the Discord webhook, the Google Sheets client, the reading of `config.json`, of the environment and of the CSV files, and `print` are I/O. The balances, the offline holdings, the targets, the invested amount and the CSV rows are inputs; the ticker is the function parameter `price`.
- `datetime.now()` and `strftime` are the clock: the formatted timestamp is the `timestamp` parameter.
- Floating point: amounts, prices and values are exact reals, so a sum of allocs is exactly 1 where floats would give only about 1.
- Parsing: `float(...)` of balance strings and CSV cells is not modelled. A CSV row is taken as already parsed; a short row (an `IndexError`) and an unparsable cell (a `ValueError`) are not modelled.
- JSON `null` values in `offline_assets` and `target_allocations` are treated as absent keys, as `.get(...) != None` does.
- Python's integer/float distinctions (`price = 1`, `alloc_diff = 0`) are not modelled; both are the reals 1 and 0.
- The sheet range, value-input option and request body of the sheet update are left out with the Sheets client; the model stops at the grid.
