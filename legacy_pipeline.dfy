/** The older pipeline (crypto-portfolio.py): offline holdings and the
    invested amounts come from CSV rows, the exchange balances are merged and
    valued as in the current pipeline, each row gets its share of the
    portfolio, and the grid lists the asset rows first and the summary after. */
module LegacyPipeline {
  import opened Portfolio

  /** A row of the offline-assets CSV: column 0 names the asset, column 1
      holds its amount. */
  datatype OfflineRow = OfflineRow(key: string, amount: real)

  /** The `offline_assets` dictionary after the CSV loop has stored the
      first `n` rows. */
  function OfflineMap(rows: seq<OfflineRow>, n: nat): map<string, real>
    requires n <= |rows|
  {
    if n == 0 then map[] else OfflineMap(rows, n - 1)[rows[n - 1].key := rows[n - 1].amount]
  }

  /** Row `j` is the last of the first `n` rows with its key. */
  predicate LastWithKey(rows: seq<OfflineRow>, j: nat, n: nat)
    requires j < n <= |rows|
  {
    forall l :: j < l < n ==> rows[l].key != rows[j].key
  }

  /** The offline map has one entry per key of the CSV rows. */
  lemma {:induction false} OfflineMapKeys(rows: seq<OfflineRow>, n: nat)
    requires n <= |rows|
    ensures forall x :: x in OfflineMap(rows, n) <==> exists j :: 0 <= j < n && rows[j].key == x
  {
    if n > 0 {
      OfflineMapKeys(rows, n - 1);
      forall x | x in OfflineMap(rows, n)
        ensures exists j :: 0 <= j < n && rows[j].key == x
      {
        if x != rows[n - 1].key {
          assert x in OfflineMap(rows, n - 1);
        }
      }
      forall x | exists j :: 0 <= j < n && rows[j].key == x
        ensures x in OfflineMap(rows, n)
      {
        var j :| 0 <= j < n && rows[j].key == x;
        if j < n - 1 {
          assert x in OfflineMap(rows, n - 1);
        }
      }
    }
  }

  /** Each key holds the amount of the last row that names it: a later row
      for the same asset overwrites an earlier one. */
  lemma {:induction false} OfflineMapLastRowWins(rows: seq<OfflineRow>, n: nat)
    requires n <= |rows|
    ensures forall j :: 0 <= j < n && LastWithKey(rows, j, n) ==>
              rows[j].key in OfflineMap(rows, n) && OfflineMap(rows, n)[rows[j].key] == rows[j].amount
  {
    if n > 0 {
      OfflineMapLastRowWins(rows, n - 1);
      forall j | 0 <= j < n - 1 && LastWithKey(rows, j, n)
        ensures rows[j].key in OfflineMap(rows, n) && OfflineMap(rows, n)[rows[j].key] == rows[j].amount
      {
        assert LastWithKey(rows, j, n - 1);
        assert rows[n - 1].key != rows[j].key;
      }
    }
  }

  /** The CSV loop (`for row in csvreader`) filling `offline_assets`. */
  method ReadOfflineAssets(rows: seq<OfflineRow>) returns (offline: map<string, real>)
    ensures offline == OfflineMap(rows, |rows|)
  {
    offline := map[];
    for i := 0 to |rows|
      invariant offline == OfflineMap(rows, i)
    {
      offline := offline[rows[i].key := rows[i].amount];
    }
  }

  /** The valuation loop (`for b in balances`): builds `assets` and the
      accumulator `total_usd_value`. */
  method CollectAssets(balances: seq<Balance>, offline: map<string, real>, price: string -> real)
    returns (assets: seq<AssetRow>, totalUsdValue: real)
    ensures assets == Collected(balances, |balances|, offline, price)
    ensures totalUsdValue == TotalValue(assets)
  {
    assets, totalUsdValue := [], 0.0;
    for i := 0 to |balances|
      invariant assets == Collected(balances, i, offline, price)
      invariant totalUsdValue == RunningTotal(balances, i, offline, price)
    {
      var b := balances[i];
      var amount := b.free + b.locked;
      if b.asset in offline {
        amount := amount + offline[b.asset];
      }
      if amount == 0.0 {
        continue;
      }
      var p := if b.asset == USDT then 1.0 else price(b.asset);
      var usdValue := amount * p;
      ValueOfPricedRow(b, offline, price);
      totalUsdValue := totalUsdValue + usdValue;
      assets := assets + [Priced(b.asset, p, amount)];
    }
    RunningTotalIsTotalValue(balances, |balances|, offline, price);
  }

  /** `row` is the five-column row the allocation loop writes over `src`:
      the source's columns, its value, and its share of the whole total. */
  predicate ValuedFrom(src: AssetRow, totalUsdValue: real, row: AssetRow)
  {
    && row.Valued?
    && row.asset == src.asset && row.price == src.price && row.amount == src.amount
    && row.usdValue == Value(src)
    && totalUsdValue != 0.0 && row.alloc == Value(src) / totalUsdValue
  }

  /** The allocation loop (`for i in range(len(assets))`), rewriting each row
      of `assets` in place. It fails with a division by zero when there is a
      row and the total is zero; otherwise the allocs add up to 1 whenever the
      total is the value of the rows. */
  method ComputeAllocs(priced: seq<AssetRow>, totalUsdValue: real) returns (r: Result<seq<AssetRow>>)
    ensures r.Err? <==> |priced| > 0 && totalUsdValue == 0.0
    ensures r.Err? ==> r.error == ZeroPortfolioValue
    ensures r.Ok? ==> |r.value| == |priced|
    ensures r.Ok? ==> forall k :: 0 <= k < |priced| ==> ValuedFrom(priced[k], totalUsdValue, r.value[k])
    ensures r.Ok? ==> forall k :: 0 <= k < |r.value| ==> r.value[k].Valued?
    ensures r.Ok? && |priced| > 0 && totalUsdValue == TotalValue(priced) ==> SumAllocs(r.value) == 1.0
  {
    var assets := priced;
    for i := 0 to |assets|
      invariant |assets| == |priced|
      invariant forall k :: i <= k < |assets| ==> assets[k] == priced[k]
      invariant forall k :: 0 <= k < i ==> ValuedFrom(priced[k], totalUsdValue, assets[k])
    {
      var a := assets[i];
      var usdValue := a.price * a.amount;
      if totalUsdValue == 0.0 {
        return Err(ZeroPortfolioValue);
      }
      var alloc := usdValue / totalUsdValue;
      assets := assets[i := Valued(a.asset, a.price, a.amount, usdValue, alloc)];
    }
    r := Ok(assets);
    if |priced| > 0 && totalUsdValue == TotalValue(priced) {
      AllocsSumToOne(priced, assets);
    }
  }

  /** `total_invested`: the first column of the investments CSV, added up. */
  function Invested(column: seq<real>): real
  {
    if column == [] then 0.0 else column[0] + Invested(column[1..])
  }

  /** Investments recorded in two parts add up to the sum of the parts. */
  lemma {:induction false} InvestedOfConcat(a: seq<real>, b: seq<real>)
    ensures Invested(a + b) == Invested(a) + Invested(b)
  {
    if a == [] {
      assert a + b == b;
    } else {
      assert (a + b)[1..] == a[1..] + b;
      InvestedOfConcat(a[1..], b);
    }
  }

  /** The investments loop (`for row in csvreader`) accumulating column 0. */
  method SumInvested(column: seq<real>) returns (totalInvested: real)
    ensures totalInvested == Invested(column)
  {
    totalInvested := 0.0;
    for i := 0 to |column|
      invariant totalInvested == Invested(column[..i])
    {
      InvestedOfConcat(column[..i], [column[i]]);
      assert column[..i + 1] == column[..i] + [column[i]];
      totalInvested := totalInvested + column[i];
    }
    assert column[..|column|] == column;
  }

  /** The grid (crypto-portfolio.py 62-67): the asset rows in their own
      order, a blank row, then investment, current value, their ratio and the
      timestamp. The ratio divides by the total invested. */
  method Overview(assets: seq<AssetRow>, totalInvested: real, totalUsdValue: real, timestamp: string)
    returns (r: Result<Grid>)
    ensures r.Err? <==> totalInvested == 0.0
    ensures r.Err? ==> r.error == ZeroInvestment
    ensures r.Ok? ==>
              var n := |assets|;
              && |r.value| == n + 5
              && (forall k :: 0 <= k < n ==> r.value[k] == Cells(assets[k]))
              && r.value[n] == []
              && r.value[n + 1] == [Text("Investment"), Num(totalInvested)]
              && r.value[n + 2] == [Text("Current value"), Num(totalUsdValue)]
              && r.value[n + 3] == [Text("Percentage"), Num(totalUsdValue / totalInvested)]
              && r.value[n + 4] == [Text("Last updated at"), Text(timestamp)]
  {
    var grid: Grid := seq(|assets|, k requires 0 <= k < |assets| => Cells(assets[k]));
    grid := grid + [[]];
    grid := grid + [[Text("Investment"), Num(totalInvested)]];
    grid := grid + [[Text("Current value"), Num(totalUsdValue)]];
    if totalInvested == 0.0 {
      return Err(ZeroInvestment);
    }
    grid := grid + [[Text("Percentage"), Num(totalUsdValue / totalInvested)]];
    grid := grid + [[Text("Last updated at"), Text(timestamp)]];
    return Ok(grid);
  }

  /** The whole script on already-fetched inputs: the balances, the two
      CSV files as rows, the exchange's ticker as `price` and the formatted
      clock reading as `timestamp`. */
  method Run(balances: seq<Balance>, offlineRows: seq<OfflineRow>, investments: seq<real>,
             price: string -> real, timestamp: string)
    returns (r: Result<Grid>)
    ensures var assets := Collected(balances, |balances|, OfflineMap(offlineRows, |offlineRows|), price);
            && (r.Err? <==> Invested(investments) == 0.0 || (|assets| > 0 && TotalValue(assets) == 0.0))
            && (r.Err? ==> r.error == if |assets| > 0 && TotalValue(assets) == 0.0 then ZeroPortfolioValue
                                      else ZeroInvestment)
    ensures var offline := OfflineMap(offlineRows, |offlineRows|);
            var keep := KeptIndices(balances, |balances|, offline);
            r.Ok? ==>
              && |r.value| == |keep| + 5
              // one row per non-zero balance, in the balances' order, no sorting
              && (forall k :: 0 <= k < |keep| ==>
                    keep[k] < |balances| && |r.value[k]| == 5 &&
                    r.value[k][0] == Text(balances[keep[k]].asset) &&
                    r.value[k][2] == Num(Amount(balances[keep[k]], offline)))
              && r.value[|keep|] == []
              && r.value[|keep| + 1] == [Text("Investment"), Num(Invested(investments))]
              && r.value[|keep| + 2] == [Text("Current value"), Num(TotalValue(Collected(balances, |balances|, offline, price)))]
              && r.value[|keep| + 4] == [Text("Last updated at"), Text(timestamp)]
    // the percentage row, and every cell of the asset rows
    ensures var assets := Collected(balances, |balances|, OfflineMap(offlineRows, |offlineRows|), price);
            r.Ok? ==>
              && |r.value| == |assets| + 5
              && Invested(investments) != 0.0
              && r.value[|assets| + 3] == [Text("Percentage"), Num(TotalValue(assets) / Invested(investments))]
              && forall k :: 0 <= k < |assets| ==>
                   && TotalValue(assets) != 0.0
                   && r.value[k] == [Text(assets[k].asset), Num(assets[k].price), Num(assets[k].amount),
                                     Num(Value(assets[k])), Num(Value(assets[k]) / TotalValue(assets))]
  {
    var offline := ReadOfflineAssets(offlineRows);
    var assets, totalUsdValue := CollectAssets(balances, offline, price);
    var valued := ComputeAllocs(assets, totalUsdValue);
    if valued.Err? {
      return Err(valued.error);
    }
    var totalInvested := SumInvested(investments);
    var grid := Overview(valued.value, totalInvested, totalUsdValue, timestamp);
    if grid.Err? {
      return Err(grid.error);
    }
    r := Ok(grid.value);
    GridShowsKeptBalances(balances, offline, price, totalUsdValue, valued.value, grid.value);
  }

  /** The asset rows of the grid name the kept balances, in the balances'
      own order, with their combined amounts. */
  lemma GridShowsKeptBalances(balances: seq<Balance>, offline: map<string, real>, price: string -> real,
                              totalUsdValue: real, rows: seq<AssetRow>, grid: Grid)
    requires |rows| == |Collected(balances, |balances|, offline, price)|
    requires forall k :: 0 <= k < |rows| ==> ValuedFrom(Collected(balances, |balances|, offline, price)[k], totalUsdValue, rows[k])
    requires |grid| >= |rows| && forall k :: 0 <= k < |rows| ==> grid[k] == Cells(rows[k])
    ensures var keep := KeptIndices(balances, |balances|, offline);
            && |keep| == |rows|
            && forall k :: 0 <= k < |keep| ==>
                 keep[k] < |balances| && |grid[k]| == 5 &&
                 grid[k][0] == Text(balances[keep[k]].asset) &&
                 grid[k][2] == Num(Amount(balances[keep[k]], offline))
  {
    CollectedFollowsKeptIndices(balances, |balances|, offline, price);
  }
}
