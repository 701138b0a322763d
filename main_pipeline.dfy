/** The current pipeline (main.py): merge the exchange balances with the
    offline holdings from the configuration, value them, compute each asset's
    allocation against the configured targets, decide whether a rebalancing
    notification is due, and lay out the overview grid for the sheet. */
module MainPipeline {
  import opened Portfolio

  /** The result of the allocation loop: the rewritten `assets` list and the
      `notification_required` flag. */
  datatype Allocation = Allocation(rows: seq<AssetRow>, notificationRequired: bool)

  /** What a successful run hands to the sheet writer and the webhook. */
  datatype Report = Report(grid: Grid, notificationRequired: bool)

  /** The fixed header row above the asset rows. */
  const Header: Row := [Text("Asset"), Text("Price"), Text("Amount"), Text("USD Value"),
                        Text("Alloc"), Text("Target Alloc"), Text("Alloc Diff"), Text("Amount Diff")]

  /** The notification band: a row breaches it when its alloc diff exceeds a
      tenth of the target it carries. */
  predicate Breaches(r: AssetRow)
  {
    r.Allocated? && Abs(r.allocDiff) > r.targetAlloc * 0.1
  }

  /** The same band read off a grid row: the alloc diff column against the
      target alloc column. */
  predicate FlaggedRow(row: Row)
  {
    |row| == 8 && row[5].Num? && row[6].Num? && Abs(row[6].num) > row[5].num * 0.1
  }

  /** The value of the variable `target_alloc` after the first `n` iterations
      of the allocation loop. Only targeted rows assign it (the untargeted
      branch assigns a differently named variable), so it holds the target of
      the latest targeted row, and is unbound (None) before the first one. */
  function TargetAfter(assets: seq<AssetRow>, targets: map<string, real>, n: nat): Option<real>
    requires n <= |assets|
  {
    if n == 0 then None
    else if assets[n - 1].asset in targets then Some(targets[assets[n - 1].asset])
    else TargetAfter(assets, targets, n - 1)
  }

  /** A targeted row whose amount change would be divided by a zero price. */
  predicate ZeroPriced(r: AssetRow, targets: map<string, real>)
  {
    r.asset in targets && r.price == 0.0
  }

  /** `row` is what the allocation loop writes over `src`, with `carried` the
      value of `target_alloc` at that iteration: the alloc is the share of
      the whole portfolio; a targeted asset's diff is target minus alloc and
      its amount change closes the gap to `target * alloc_total` exactly; an
      untargeted asset has zero diff and zero change but still shows the
      carried target. */
  predicate AllocatedFrom(src: AssetRow, totalUsdValue: real, allocTotal: real,
                          targets: map<string, real>, carried: real, row: AssetRow)
  {
    && row.Allocated?
    && row.asset == src.asset && row.price == src.price && row.amount == src.amount
    && row.usdValue == Value(src)
    && totalUsdValue != 0.0 && row.alloc == Value(src) / totalUsdValue
    && row.targetAlloc == carried
    && (src.asset in targets ==>
          && carried == targets[src.asset]
          && row.allocDiff == carried - row.alloc
          && row.amountChange * row.price + row.usdValue == carried * allocTotal)
    && (src.asset !in targets ==> row.allocDiff == 0.0 && row.amountChange == 0.0)
  }

  /** Row `k` of the rewritten list is what the loop writes over `priced[k]`,
      with `target_alloc` bound at that iteration. */
  predicate RewrittenAt(priced: seq<AssetRow>, k: nat, totalUsdValue: real, allocTotal: real,
                        targets: map<string, real>, row: AssetRow)
    requires k < |priced|
  {
    TargetAfter(priced, targets, k + 1).Some? &&
    AllocatedFrom(priced[k], totalUsdValue, allocTotal, targets, TargetAfter(priced, targets, k + 1).value, row)
  }

  /** `target_alloc` is unbound after `n` iterations exactly when none of the
      first `n` rows is targeted; otherwise it is the target of the latest
      targeted row among them. */
  lemma {:induction false} TargetAfterIsLatestTarget(assets: seq<AssetRow>, targets: map<string, real>, n: nat)
    requires n <= |assets|
    ensures TargetAfter(assets, targets, n).None? <==> forall j :: 0 <= j < n ==> assets[j].asset !in targets
    ensures TargetAfter(assets, targets, n).Some? ==>
              exists j :: 0 <= j < n && assets[j].asset in targets &&
                TargetAfter(assets, targets, n).value == targets[assets[j].asset] &&
                forall l :: j < l < n ==> assets[l].asset !in targets
  {
    if n > 0 && assets[n - 1].asset !in targets {
      TargetAfterIsLatestTarget(assets, targets, n - 1);
    }
  }

  /** Trading `(goal - value) / price` units at `price` takes `value` to `goal`. */
  lemma TradeClosesGap(goal: real, value: real, price: real)
    requires price != 0.0
    ensures ((goal - value) / price) * price + value == goal
  {
  }

  /** The valuation loop (`for b in balances`): builds `assets` and the two
      accumulators `total_usd_value` and `alloc_total`. */
  method CollectAssets(balances: seq<Balance>, offline: map<string, real>, targets: map<string, real>,
                       price: string -> real)
    returns (assets: seq<AssetRow>, totalUsdValue: real, allocTotal: real)
    ensures assets == Collected(balances, |balances|, offline, price)
    ensures totalUsdValue == TotalValue(assets)
    ensures allocTotal == ManagedValue(assets, targets)
  {
    assets, totalUsdValue, allocTotal := [], 0.0, 0.0;
    for i := 0 to |balances|
      invariant assets == Collected(balances, i, offline, price)
      invariant totalUsdValue == RunningTotal(balances, i, offline, price)
      invariant allocTotal == RunningManaged(balances, i, offline, targets, price)
    {
      var b := balances[i];
      var amount := b.free + b.locked;
      if b.asset in offline {
        amount := amount + offline[b.asset];
      }
      if amount == 0.0 {
        continue;
      }
      var p := if b.asset == USDT then 1.0 else price(b.asset);
      var usdValue := amount * p;
      ValueOfPricedRow(b, offline, price);
      totalUsdValue := totalUsdValue + usdValue;
      assets := assets + [Priced(b.asset, p, amount)];
      if b.asset in targets {
        allocTotal := allocTotal + usdValue;
      }
    }
    RunningTotalIsTotalValue(balances, |balances|, offline, price);
    RunningManagedIsManagedValue(balances, |balances|, offline, targets, price);
  }

  /** One iteration of the allocation loop on row `a`, with `carried` the
      value of `target_alloc` before it: the row written back, or the
      exception the iteration raises. */
  function RewriteRow(a: AssetRow, totalUsdValue: real, allocTotal: real, targets: map<string, real>,
                      carried: Option<real>): Result<AssetRow>
  {
    var usdValue := a.price * a.amount;
    if totalUsdValue == 0.0 then Err(ZeroPortfolioValue)
    else
      var alloc := usdValue / totalUsdValue;
      if a.asset in targets then
        var target := targets[a.asset];
        if a.price == 0.0 then Err(ZeroPrice)
        else Ok(Allocated(a.asset, a.price, a.amount, usdValue, alloc, target, target - alloc,
                          (target * allocTotal - usdValue) / a.price))
      else if carried.None? then Err(TargetAllocUndefined)
      else Ok(Allocated(a.asset, a.price, a.amount, usdValue, alloc, carried.value, 0.0, 0.0))
  }

  /** An iteration raises exactly when the total is zero (the alloc), the
      asset is targeted and priced at zero (the amount change), or the asset
      is untargeted while `target_alloc` is still unbound (the band test);
      otherwise it writes the row `AllocatedFrom` describes. */
  lemma RewriteRowMeaning(a: AssetRow, totalUsdValue: real, allocTotal: real, targets: map<string, real>,
                          carried: Option<real>)
    ensures var r := RewriteRow(a, totalUsdValue, allocTotal, targets, carried);
            && (r.Err? <==> totalUsdValue == 0.0 || ZeroPriced(a, targets) || (a.asset !in targets && carried.None?))
            && (r.Err? ==> r.error == if totalUsdValue == 0.0 then ZeroPortfolioValue
                                      else if ZeroPriced(a, targets) then ZeroPrice
                                      else TargetAllocUndefined)
            && (r.Ok? ==> AllocatedFrom(a, totalUsdValue, allocTotal, targets,
                                        if a.asset in targets then targets[a.asset] else carried.value, r.value))
  {
    if totalUsdValue != 0.0 && a.asset in targets && a.price != 0.0 {
      TradeClosesGap(targets[a.asset] * allocTotal, a.price * a.amount, a.price);
    }
  }

  /** The state of the allocation loop after its first `n` iterations: the
      rows rewritten so far and the flag, or the exception that stopped it. */
  function AllocationAfter(priced: seq<AssetRow>, n: nat, totalUsdValue: real, allocTotal: real,
                           targets: map<string, real>): Result<Allocation>
    requires n <= |priced|
  {
    if n == 0 then Ok(Allocation([], false))
    else
      match AllocationAfter(priced, n - 1, totalUsdValue, allocTotal, targets)
      case Err(e) => Err(e)
      case Ok(prev) =>
        match RewriteRow(priced[n - 1], totalUsdValue, allocTotal, targets, TargetAfter(priced, targets, n - 1))
        case Err(e) => Err(e)
        case Ok(row) => Ok(Allocation(prev.rows + [row], prev.notificationRequired || Breaches(row)))
  }

  /** Once an iteration has raised, the loop's outcome is that exception. */
  lemma {:induction false} ErrorPersists(priced: seq<AssetRow>, n: nat, m: nat, totalUsdValue: real,
                                         allocTotal: real, targets: map<string, real>)
    requires n <= m <= |priced|
    requires AllocationAfter(priced, n, totalUsdValue, allocTotal, targets).Err?
    ensures AllocationAfter(priced, m, totalUsdValue, allocTotal, targets) ==
              AllocationAfter(priced, n, totalUsdValue, allocTotal, targets)
  {
    if n < m {
      ErrorPersists(priced, n, m - 1, totalUsdValue, allocTotal, targets);
    }
  }

  /** The loop raises within its first `n` iterations exactly when there is
      a row and the total is zero, the first row is untargeted (so
      `target_alloc` is read unbound), or some targeted row has a zero price;
      the exception is the first of these in that order. */
  lemma {:induction false} AllocationErrors(priced: seq<AssetRow>, n: nat, totalUsdValue: real, allocTotal: real,
                                            targets: map<string, real>)
    requires n <= |priced|
    ensures AllocationAfter(priced, n, totalUsdValue, allocTotal, targets).Err? <==>
              n > 0 && (totalUsdValue == 0.0 || priced[0].asset !in targets ||
                        exists k :: 0 <= k < n && ZeroPriced(priced[k], targets))
    ensures AllocationAfter(priced, n, totalUsdValue, allocTotal, targets).Err? ==>
              AllocationAfter(priced, n, totalUsdValue, allocTotal, targets).error ==
                if totalUsdValue == 0.0 then ZeroPortfolioValue
                else if priced[0].asset !in targets then TargetAllocUndefined
                else ZeroPrice
  {
    if n > 0 {
      AllocationErrors(priced, n - 1, totalUsdValue, allocTotal, targets);
      RewriteRowMeaning(priced[n - 1], totalUsdValue, allocTotal, targets, TargetAfter(priced, targets, n - 1));
      TargetAfterIsLatestTarget(priced, targets, n - 1);
      if n > 1 && priced[0].asset in targets {
        assert TargetAfter(priced, targets, n - 1).Some?;
      }
    }
  }

  /** When the first `n` iterations complete, row `k` of the result is the
      rewrite of `priced[k]` and the flag is raised iff some row breaches its
      band. */
  lemma {:induction false} AllocationRows(priced: seq<AssetRow>, n: nat, totalUsdValue: real, allocTotal: real,
                                          targets: map<string, real>)
    requires n <= |priced|
    ensures var s := AllocationAfter(priced, n, totalUsdValue, allocTotal, targets);
            s.Ok? ==>
              && |s.value.rows| == n
              && (forall k :: 0 <= k < n ==> RewrittenAt(priced, k, totalUsdValue, allocTotal, targets, s.value.rows[k]))
              && (s.value.notificationRequired <==> exists k :: 0 <= k < n && Breaches(s.value.rows[k]))
  {
    var s := AllocationAfter(priced, n, totalUsdValue, allocTotal, targets);
    if n > 0 && s.Ok? {
      AllocationRows(priced, n - 1, totalUsdValue, allocTotal, targets);
      RewriteRowMeaning(priced[n - 1], totalUsdValue, allocTotal, targets, TargetAfter(priced, targets, n - 1));
      var prev := AllocationAfter(priced, n - 1, totalUsdValue, allocTotal, targets).value;
      var row := RewriteRow(priced[n - 1], totalUsdValue, allocTotal, targets, TargetAfter(priced, targets, n - 1)).value;
      assert s.value == Allocation(prev.rows + [row], prev.notificationRequired || Breaches(row));
      assert RewrittenAt(priced, n - 1, totalUsdValue, allocTotal, targets, row);
      assert forall k :: 0 <= k < n - 1 ==> s.value.rows[k] == prev.rows[k];
      assert s.value.rows[n - 1] == row;
    }
  }

  /** The allocation loop (`for i in range(len(assets))`), rewriting each
      row of `assets` in place and raising the flag when a row breaches its
      band; its outcome is `AllocationAfter` over all rows. */
  method AllocateRows(priced: seq<AssetRow>, totalUsdValue: real, allocTotal: real, targets: map<string, real>)
    returns (r: Result<Allocation>)
    ensures r == AllocationAfter(priced, |priced|, totalUsdValue, allocTotal, targets)
  {
    var assets := priced;
    var notificationRequired := false;
    var targetAlloc: Option<real> := None;
    for i := 0 to |assets|
      invariant |assets| == |priced|
      invariant forall k :: i <= k < |assets| ==> assets[k] == priced[k]
      invariant targetAlloc == TargetAfter(priced, targets, i)
      invariant AllocationAfter(priced, i, totalUsdValue, allocTotal, targets) ==
                  Ok(Allocation(assets[..i], notificationRequired))
    {
      var a := assets[i];
      assert a == priced[i];
      var row := RewriteRow(a, totalUsdValue, allocTotal, targets, targetAlloc);
      if row.Err? {
        ErrorPersists(priced, i + 1, |priced|, totalUsdValue, allocTotal, targets);
        return Err(row.error);
      }
      if a.asset in targets {
        targetAlloc := Some(targets[a.asset]);
      }
      if Breaches(row.value) {
        notificationRequired := true;
      }
      ghost var done := assets[..i];
      assets := assets[i := row.value];
      assert assets[..i + 1] == done + [row.value];
    }
    assert assets[..|assets|] == assets;
    r := Ok(Allocation(assets, notificationRequired));
  }

  /** With non-negative targets, an untargeted row never breaches its band:
      its diff is zero and the target it carries is some configured target. */
  lemma UntargetedRowsNeverBreach(priced: seq<AssetRow>, totalUsdValue: real, allocTotal: real,
                                  targets: map<string, real>, rows: seq<AssetRow>)
    requires |rows| == |priced|
    requires forall k :: 0 <= k < |priced| ==> RewrittenAt(priced, k, totalUsdValue, allocTotal, targets, rows[k])
    ensures (forall x :: x in targets ==> targets[x] >= 0.0) ==>
              forall k :: 0 <= k < |priced| && priced[k].asset !in targets ==> !Breaches(rows[k])
  {
    if forall x :: x in targets ==> targets[x] >= 0.0 {
      forall k | 0 <= k < |priced| && priced[k].asset !in targets
        ensures !Breaches(rows[k])
      {
        assert RewrittenAt(priced, k, totalUsdValue, allocTotal, targets, rows[k]);
        TargetAfterIsLatestTarget(priced, targets, k + 1);
      }
    }
  }

  /** Rewritten rows carry allocs that add up to 1 when the total is the
      value of the rows they were computed from. */
  lemma RewrittenAllocsSumToOne(priced: seq<AssetRow>, totalUsdValue: real, allocTotal: real,
                                targets: map<string, real>, rows: seq<AssetRow>)
    requires |rows| == |priced| > 0 && totalUsdValue == TotalValue(priced)
    requires forall k :: 0 <= k < |priced| ==> RewrittenAt(priced, k, totalUsdValue, allocTotal, targets, rows[k])
    ensures forall k :: 0 <= k < |rows| ==> rows[k].Allocated?
    ensures SumAllocs(rows) == 1.0
  {
    forall k | 0 <= k < |rows|
      ensures rows[k].Allocated? && rows[k].alloc == Value(priced[k]) / TotalValue(priced)
    {
      assert RewrittenAt(priced, k, totalUsdValue, allocTotal, targets, rows[k]);
    }
    AllocsSumToOne(priced, rows);
  }

  /** When every held asset is targeted (so `alloc_total` is the whole
      total), a positive price makes the amount change point the same way as
      the alloc diff: buy when under target, sell when over. */
  lemma TradeFollowsDiffWhenAllTargeted(src: AssetRow, totalUsdValue: real, allocTotal: real,
                                        targets: map<string, real>, carried: real, row: AssetRow)
    requires AllocatedFrom(src, totalUsdValue, allocTotal, targets, carried, row)
    requires src.asset in targets && src.price > 0.0 && totalUsdValue > 0.0 && allocTotal == totalUsdValue
    ensures row.allocDiff > 0.0 <==> row.amountChange > 0.0
    ensures row.allocDiff < 0.0 <==> row.amountChange < 0.0
  {
    var t, v, p := totalUsdValue, Value(src), src.price;
    assert (v / t) * t == v;
    assert row.allocDiff * t == carried * t - v;
    assert row.amountChange * p == row.allocDiff * t;
    SameSign(row.amountChange, p, row.allocDiff, t);
  }

  lemma SameSign(x: real, p: real, y: real, t: real)
    requires p > 0.0 && t > 0.0 && x * p == y * t
    ensures (x > 0.0 <==> y > 0.0) && (x < 0.0 <==> y < 0.0)
  {
    if x > 0.0 { assert x * p > 0.0; }
    if x < 0.0 { assert x * p < 0.0; }
    if y > 0.0 { assert y * t > 0.0; }
    if y < 0.0 { assert y * t < 0.0; }
  }

  /** With an untargeted holding the two can disagree: the alloc diff is a
      share of the whole portfolio, the amount change closes the gap to a
      share of the managed value only. Here BTC is under its target by the
      first measure and is still to be sold by the second. */
  lemma TradeCanOpposeDiff()
    ensures var targets := map["BTC" := 0.5, "ETH" := 0.5];
            var priced := [Priced("BTC", 1.0, 40.0), Priced("ETH", 1.0, 10.0), Priced(USDT, 1.0, 50.0)];
            var s := AllocationAfter(priced, 3, TotalValue(priced), ManagedValue(priced, targets), targets);
            && TotalValue(priced) == 100.0 && ManagedValue(priced, targets) == 50.0
            && s.Ok? && |s.value.rows| == 3
            // alloc 0.4 against a target of 0.5, yet 15 BTC to sell
            && s.value.rows[0] == Allocated("BTC", 1.0, 40.0, 40.0, 0.4, 0.5, 0.1, -15.0)
  {
    var targets := map["BTC" := 0.5, "ETH" := 0.5];
    var r0, r1, r2 := Priced("BTC", 1.0, 40.0), Priced("ETH", 1.0, 10.0), Priced(USDT, 1.0, 50.0);
    var priced := [r0, r1, r2];
    assert [r0][..0] == [] && [r0, r1][..1] == [r0] && priced[..2] == [r0, r1];
    assert TotalValue([r0]) == 40.0 && TotalValue([r0, r1]) == 50.0;
    assert ManagedValue([r0], targets) == 40.0 && ManagedValue([r0, r1], targets) == 50.0;
    assert USDT !in targets;
    var row0 := Allocated("BTC", 1.0, 40.0, 40.0, 0.4, 0.5, 0.1, -15.0);
    assert RewriteRow(r0, 100.0, 50.0, targets, None) == Ok(row0);
    assert AllocationAfter(priced, 0, 100.0, 50.0, targets) == Ok(Allocation([], false));
    assert TargetAfter(priced, targets, 0) == None && priced[0] == r0;
    assert [] + [row0] == [row0];
    assert AllocationAfter(priced, 1, 100.0, 50.0, targets) == Ok(Allocation([row0], Breaches(row0)));
    assert TargetAfter(priced, targets, 1) == Some(0.5) && TargetAfter(priced, targets, 2) == Some(0.5);
    var row1 := RewriteRow(r1, 100.0, 50.0, targets, Some(0.5));
    assert row1.Ok?;
    var row2 := RewriteRow(r2, 100.0, 50.0, targets, Some(0.5));
    assert row2.Ok?;
  }

  /** The overview grid (main.py 89-105): investment, current value, their
      ratio, the timestamp, a blank row, the header, then the asset rows in
      their own order. The ratio divides by the total invested. */
  method Overview(totalInvested: real, totalUsdValue: real, timestamp: string, assets: seq<AssetRow>)
    returns (r: Result<Grid>)
    ensures r.Err? <==> totalInvested == 0.0
    ensures r.Err? ==> r.error == ZeroInvestment
    ensures r.Ok? ==>
              && |r.value| == 6 + |assets|
              && r.value[0] == [Text("Investment"), Num(totalInvested)]
              && r.value[1] == [Text("Current value"), Num(totalUsdValue)]
              && r.value[2] == [Text("Percentage"), Num(totalUsdValue / totalInvested)]
              && r.value[3] == [Text("Last updated at"), Text(timestamp)]
              && r.value[4] == []
              && r.value[5] == Header
              && forall k :: 0 <= k < |assets| ==> r.value[6 + k] == Cells(assets[k])
  {
    var overview: Grid := [];
    overview := overview + [[Text("Investment"), Num(totalInvested)]];
    overview := overview + [[Text("Current value"), Num(totalUsdValue)]];
    if totalInvested == 0.0 {
      return Err(ZeroInvestment);
    }
    overview := overview + [[Text("Percentage"), Num(totalUsdValue / totalInvested)]];
    overview := overview + [[Text("Last updated at"), Text(timestamp)]];
    overview := overview + [[]];
    overview := overview + [Header];
    overview := overview + seq(|assets|, k requires 0 <= k < |assets| => Cells(assets[k]));
    return Ok(overview);
  }

  /** The whole script on already-fetched inputs. `price` stands for the
      exchange's ticker and `timestamp` for the formatted clock reading. */
  method Run(balances: seq<Balance>, offline: map<string, real>, targets: map<string, real>,
             price: string -> real, totalInvested: real, timestamp: string)
    returns (r: Result<Report>)
    ensures var assets := Collected(balances, |balances|, offline, price);
            && (r.Err? <==> totalInvested == 0.0 ||
                            (|assets| > 0 && (TotalValue(assets) == 0.0 || assets[0].asset !in targets ||
                                              exists k :: 0 <= k < |assets| && ZeroPriced(assets[k], targets))))
            && (r.Err? ==> r.error == if |assets| > 0 && TotalValue(assets) == 0.0 then ZeroPortfolioValue
                                      else if |assets| > 0 && assets[0].asset !in targets then TargetAllocUndefined
                                      else if exists k :: 0 <= k < |assets| && ZeroPriced(assets[k], targets)
                                      then ZeroPrice
                                      else ZeroInvestment)
    ensures var keep := KeptIndices(balances, |balances|, offline);
            r.Ok? ==>
              && |r.value.grid| == 6 + |keep|
              && r.value.grid[1] == [Text("Current value"), Num(TotalValue(Collected(balances, |balances|, offline, price)))]
              && r.value.grid[5] == Header
              // one row per non-zero balance, in the balances' order, no sorting
              && forall k :: 0 <= k < |keep| ==>
                   keep[k] < |balances| && |r.value.grid[6 + k]| == 8 &&
                   r.value.grid[6 + k][0] == Text(balances[keep[k]].asset) &&
                   r.value.grid[6 + k][2] == Num(Amount(balances[keep[k]], offline))
    ensures r.Ok? ==> (r.value.notificationRequired <==>
                        exists k :: 6 <= k < |r.value.grid| && FlaggedRow(r.value.grid[k]))
    // the summary rows in place
    ensures var assets := Collected(balances, |balances|, offline, price);
            r.Ok? ==>
              && |r.value.grid| == 6 + |assets|
              && totalInvested != 0.0
              && r.value.grid[0] == [Text("Investment"), Num(totalInvested)]
              && r.value.grid[2] == [Text("Percentage"), Num(TotalValue(assets) / totalInvested)]
              && r.value.grid[3] == [Text("Last updated at"), Text(timestamp)]
              && r.value.grid[4] == []
    // the asset rows are the allocation loop's rows, each the rewrite of its priced row
    ensures var assets := Collected(balances, |balances|, offline, price);
            var alloc := AllocationAfter(assets, |assets|, TotalValue(assets), ManagedValue(assets, targets), targets);
            r.Ok? ==>
              && alloc.Ok?
              && |alloc.value.rows| == |assets| && |r.value.grid| == 6 + |assets|
              && r.value.notificationRequired == alloc.value.notificationRequired
              && forall k :: 0 <= k < |assets| ==>
                   && r.value.grid[6 + k] == Cells(alloc.value.rows[k])
                   && RewrittenAt(assets, k, TotalValue(assets), ManagedValue(assets, targets), targets,
                                  alloc.value.rows[k])
  {
    var assets, totalUsdValue, allocTotal := CollectAssets(balances, offline, targets, price);
    var alloc := AllocateRows(assets, totalUsdValue, allocTotal, targets);
    AllocationErrors(assets, |assets|, totalUsdValue, allocTotal, targets);
    AllocationRows(assets, |assets|, totalUsdValue, allocTotal, targets);
    if alloc.Err? {
      return Err(alloc.error);
    }
    var overview := Overview(totalInvested, totalUsdValue, timestamp, alloc.value.rows);
    if overview.Err? {
      return Err(overview.error);
    }
    r := Ok(Report(overview.value, alloc.value.notificationRequired));
    forall k | 0 <= k < |assets|
      ensures r.value.grid[6 + k] == Cells(alloc.value.rows[k])
      ensures RewrittenAt(assets, k, totalUsdValue, allocTotal, targets, alloc.value.rows[k])
    {
    }
    GridShowsKeptBalances(balances, offline, price, totalUsdValue, allocTotal, targets,
                          alloc.value.rows, overview.value);
    FlagMatchesGrid(alloc.value.rows, overview.value);
  }

  /** The asset rows of the overview name the kept balances, in the balances'
      own order, with their combined amounts. */
  lemma GridShowsKeptBalances(balances: seq<Balance>, offline: map<string, real>, price: string -> real,
                              totalUsdValue: real, allocTotal: real, targets: map<string, real>,
                              rows: seq<AssetRow>, grid: Grid)
    requires |rows| == |Collected(balances, |balances|, offline, price)|
    requires forall k :: 0 <= k < |rows| ==>
               RewrittenAt(Collected(balances, |balances|, offline, price), k, totalUsdValue, allocTotal, targets, rows[k])
    requires |grid| == 6 + |rows| && forall k :: 0 <= k < |rows| ==> grid[6 + k] == Cells(rows[k])
    ensures var keep := KeptIndices(balances, |balances|, offline);
            && |grid| == 6 + |keep|
            && forall k :: 0 <= k < |keep| ==>
                 keep[k] < |balances| && |grid[6 + k]| == 8 &&
                 grid[6 + k][0] == Text(balances[keep[k]].asset) &&
                 grid[6 + k][2] == Num(Amount(balances[keep[k]], offline))
  {
    var priced := Collected(balances, |balances|, offline, price);
    CollectedFollowsKeptIndices(balances, |balances|, offline, price);
    var keep := KeptIndices(balances, |balances|, offline);
    forall k | 0 <= k < |keep|
      ensures keep[k] < |balances| && |grid[6 + k]| == 8 &&
              grid[6 + k][0] == Text(balances[keep[k]].asset) &&
              grid[6 + k][2] == Num(Amount(balances[keep[k]], offline))
    {
      assert RewrittenAt(priced, k, totalUsdValue, allocTotal, targets, rows[k]);
      assert priced[k] == PricedRow(balances[keep[k]], offline, price);
    }
  }

  /** A row raises the flag exactly when its grid row shows a breach. */
  lemma FlagMatchesGrid(rows: seq<AssetRow>, grid: Grid)
    requires |grid| == 6 + |rows| && forall k :: 0 <= k < |rows| ==> grid[6 + k] == Cells(rows[k])
    requires forall k :: 0 <= k < |rows| ==> rows[k].Allocated?
    ensures (exists k :: 0 <= k < |rows| && Breaches(rows[k])) <==>
            (exists k :: 6 <= k < |grid| && FlaggedRow(grid[k]))
  {
    forall k | 0 <= k < |rows|
      ensures Breaches(rows[k]) <==> FlaggedRow(grid[6 + k])
    {
      assert grid[6 + k] == Cells(rows[k]);
    }
    if exists k :: 6 <= k < |grid| && FlaggedRow(grid[k]) {
      var k :| 6 <= k < |grid| && FlaggedRow(grid[k]);
      assert Breaches(rows[k - 6]);
    }
  }
}
