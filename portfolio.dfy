/** Definitions shared by both scripts: the balance records read from the
    exchange, the rows of the `assets` list, the cells of the spreadsheet grid,
    and the merge-and-valuation computation that both scripts write out in the
    same way (balances plus offline holdings, zero amounts dropped, USDT priced
    at exactly one). */
module Portfolio {

  /** The stable coin that is valued at 1 without a price lookup. */
  const USDT: string := "USDT"

  datatype Option<T> = None | Some(value: T)

  /** One entry of the exchange account's `balances` list. */
  datatype Balance = Balance(asset: string, free: real, locked: real)

  /** One element of the scripts' `assets` list. It starts as
      `[asset, price, amount]` and is later rewritten in place, into five
      columns by the older script and into eight by the current one. */
  datatype AssetRow =
    | Priced(asset: string, price: real, amount: real)
    | Valued(asset: string, price: real, amount: real, usdValue: real, alloc: real)
    | Allocated(asset: string, price: real, amount: real, usdValue: real, alloc: real,
                targetAlloc: real, allocDiff: real, amountChange: real)

  /** The exceptions the scripts can raise once their inputs are fetched. */
  datatype Error =
    | ZeroPortfolioValue    // `usd_value / total_usd_value` with a zero total
    | TargetAllocUndefined  // `target_alloc` read before any targeted asset was seen
    | ZeroPrice             // the amount change of a targeted asset divided by a zero price
    | ZeroInvestment        // `total_usd_value / total_invested` with nothing invested

  datatype Result<T> = Ok(value: T) | Err(error: Error)

  /** A spreadsheet cell as written by the sheet update. */
  datatype Cell = Text(text: string) | Num(num: real)
  type Row = seq<Cell>
  type Grid = seq<Row>

  function Abs(x: real): real
  {
    if x < 0.0 then -x else x
  }

  /** The combined amount of a balance: free plus locked, plus the offline
      holding when one is declared for the asset. */
  function Amount(b: Balance, offline: map<string, real>): real
  {
    if b.asset in offline then b.free + b.locked + offline[b.asset] else b.free + b.locked
  }

  /** The unit price a kept asset is valued at. */
  function UnitPrice(asset: string, price: string -> real): real
  {
    if asset == USDT then 1.0 else price(asset)
  }

  /** The row the valuation loop appends for a kept balance. */
  function PricedRow(b: Balance, offline: map<string, real>, price: string -> real): AssetRow
  {
    Priced(b.asset, UnitPrice(b.asset, price), Amount(b, offline))
  }

  /** The `assets` list after the valuation loop has run over the first `n`
      balances of `bs`. */
  function Collected(bs: seq<Balance>, n: nat, offline: map<string, real>, price: string -> real): seq<AssetRow>
    requires n <= |bs|
  {
    if n == 0 then []
    else
      var rest := Collected(bs, n - 1, offline, price);
      if Amount(bs[n - 1], offline) == 0.0 then rest else rest + [PricedRow(bs[n - 1], offline, price)]
  }

  /** The positions among the first `n` balances that the valuation loop keeps. */
  function KeptIndices(bs: seq<Balance>, n: nat, offline: map<string, real>): seq<nat>
    requires n <= |bs|
  {
    if n == 0 then []
    else
      var rest := KeptIndices(bs, n - 1, offline);
      if Amount(bs[n - 1], offline) == 0.0 then rest else rest + [n - 1]
  }

  /** The symbols the valuation loop asks the price feed about while it runs
      over the first `n` balances, in order. */
  function Lookups(bs: seq<Balance>, n: nat, offline: map<string, real>): seq<string>
    requires n <= |bs|
  {
    if n == 0 then []
    else
      var rest := Lookups(bs, n - 1, offline);
      var b := bs[n - 1];
      if Amount(b, offline) == 0.0 || b.asset == USDT then rest else rest + [b.asset]
  }

  /** The running `total_usd_value` after the first `n` balances: each kept
      balance adds the value of its row. */
  function RunningTotal(bs: seq<Balance>, n: nat, offline: map<string, real>, price: string -> real): real
    requires n <= |bs|
  {
    if n == 0 then 0.0
    else
      var rest := RunningTotal(bs, n - 1, offline, price);
      var b := bs[n - 1];
      if Amount(b, offline) == 0.0 then rest else rest + Value(PricedRow(b, offline, price))
  }

  /** The running `alloc_total` after the first `n` balances: as the running
      total, but only kept balances whose asset has a target add to it. */
  function RunningManaged(bs: seq<Balance>, n: nat, offline: map<string, real>, targets: map<string, real>,
                          price: string -> real): real
    requires n <= |bs|
  {
    if n == 0 then 0.0
    else
      var rest := RunningManaged(bs, n - 1, offline, targets, price);
      var b := bs[n - 1];
      if Amount(b, offline) == 0.0 || b.asset !in targets then rest
      else rest + Value(PricedRow(b, offline, price))
  }

  /** The USD value of a row: price times amount. */
  function Value(r: AssetRow): real
  {
    r.price * r.amount
  }

  /** `total_usd_value`: the value of all rows. */
  function TotalValue(rows: seq<AssetRow>): real
  {
    if rows == [] then 0.0 else TotalValue(rows[..|rows| - 1]) + Value(rows[|rows| - 1])
  }

  /** `alloc_total`: the value of the rows whose asset has a configured target. */
  function ManagedValue(rows: seq<AssetRow>, targets: map<string, real>): real
  {
    if rows == [] then 0.0
    else
      var last := rows[|rows| - 1];
      ManagedValue(rows[..|rows| - 1], targets) + (if last.asset in targets then Value(last) else 0.0)
  }

  /** The sum of the `alloc` column of rows that carry one. */
  function SumAllocs(rows: seq<AssetRow>): real
    requires forall k :: 0 <= k < |rows| ==> !rows[k].Priced?
  {
    if rows == [] then 0.0 else SumAllocs(rows[..|rows| - 1]) + rows[|rows| - 1].alloc
  }

  /** The cells a row occupies in the sheet, column by column. */
  function Cells(r: AssetRow): Row
  {
    match r
    case Priced(a, p, n) => [Text(a), Num(p), Num(n)]
    case Valued(a, p, n, v, al) => [Text(a), Num(p), Num(n), Num(v), Num(al)]
    case Allocated(a, p, n, v, al, t, d, c) =>
      [Text(a), Num(p), Num(n), Num(v), Num(al), Num(t), Num(d), Num(c)]
  }

  /** Appending a row adds its value to the total. */
  lemma TotalValueStep(rows: seq<AssetRow>, r: AssetRow)
    ensures TotalValue(rows + [r]) == TotalValue(rows) + Value(r)
  {
    assert (rows + [r])[..|rows|] == rows;
  }

  /** Appending a row adds its value to the managed value when it is
      targeted, and nothing otherwise. */
  lemma ManagedValueStep(rows: seq<AssetRow>, r: AssetRow, targets: map<string, real>)
    ensures r.asset in targets ==> ManagedValue(rows + [r], targets) == ManagedValue(rows, targets) + Value(r)
    ensures r.asset !in targets ==> ManagedValue(rows + [r], targets) == ManagedValue(rows, targets)
  {
    assert (rows + [r])[..|rows|] == rows;
  }

  /** The value of a kept balance's row is its amount times its unit price. */
  lemma ValueOfPricedRow(b: Balance, offline: map<string, real>, price: string -> real)
    ensures Value(PricedRow(b, offline, price)) == Amount(b, offline) * UnitPrice(b.asset, price)
  {
  }

  /** The running total is the value of the collected rows. */
  lemma {:induction false} RunningTotalIsTotalValue(bs: seq<Balance>, n: nat, offline: map<string, real>,
                                                    price: string -> real)
    requires n <= |bs|
    ensures RunningTotal(bs, n, offline, price) == TotalValue(Collected(bs, n, offline, price))
  {
    if n > 0 {
      RunningTotalIsTotalValue(bs, n - 1, offline, price);
      if Amount(bs[n - 1], offline) != 0.0 {
        TotalValueStep(Collected(bs, n - 1, offline, price), PricedRow(bs[n - 1], offline, price));
      }
    }
  }

  /** The running managed value is the managed value of the collected rows. */
  lemma {:induction false} RunningManagedIsManagedValue(bs: seq<Balance>, n: nat, offline: map<string, real>,
                                                        targets: map<string, real>, price: string -> real)
    requires n <= |bs|
    ensures RunningManaged(bs, n, offline, targets, price) == ManagedValue(Collected(bs, n, offline, price), targets)
  {
    if n > 0 {
      RunningManagedIsManagedValue(bs, n - 1, offline, targets, price);
      if Amount(bs[n - 1], offline) != 0.0 {
        ManagedValueStep(Collected(bs, n - 1, offline, price), PricedRow(bs[n - 1], offline, price), targets);
      }
    }
  }

  /** The kept positions are in range, strictly increasing, and are exactly
      the balances whose combined amount is not zero. */
  lemma {:induction false} KeptIndicesAreTheNonZeroBalances(bs: seq<Balance>, n: nat, offline: map<string, real>)
    requires n <= |bs|
    ensures forall k :: 0 <= k < |KeptIndices(bs, n, offline)| ==> KeptIndices(bs, n, offline)[k] < n
    ensures forall k, l :: 0 <= k < l < |KeptIndices(bs, n, offline)| ==>
              KeptIndices(bs, n, offline)[k] < KeptIndices(bs, n, offline)[l]
    ensures forall j :: 0 <= j < n ==> (Amount(bs[j], offline) != 0.0 <==> j in KeptIndices(bs, n, offline))
  {
    if n > 0 {
      KeptIndicesAreTheNonZeroBalances(bs, n - 1, offline);
    }
  }

  /** Row `k` of the collected list is the priced row of the `k`-th kept
      balance: so every row keeps its balance's asset, has amount free +
      locked (+ offline), is priced at 1 for USDT and at the looked-up price
      otherwise, and the rows come in the order of the balances. */
  lemma {:induction false} CollectedFollowsKeptIndices(bs: seq<Balance>, n: nat, offline: map<string, real>,
                                                       price: string -> real)
    requires n <= |bs|
    ensures |Collected(bs, n, offline, price)| == |KeptIndices(bs, n, offline)|
    ensures forall k :: 0 <= k < |Collected(bs, n, offline, price)| ==>
              KeptIndices(bs, n, offline)[k] < n &&
              Collected(bs, n, offline, price)[k] == PricedRow(bs[KeptIndices(bs, n, offline)[k]], offline, price)
  {
    if n > 0 {
      CollectedFollowsKeptIndices(bs, n - 1, offline, price);
    }
  }

  /** No collected row has a zero amount, and each is priced as the scripts do. */
  lemma CollectedRowsAreNonZeroAndPriced(bs: seq<Balance>, offline: map<string, real>, price: string -> real)
    ensures forall k :: 0 <= k < |Collected(bs, |bs|, offline, price)| ==>
              var r := Collected(bs, |bs|, offline, price)[k];
              r.Priced? && r.amount != 0.0 &&
              (r.asset == USDT ==> r.price == 1.0) &&
              (r.asset != USDT ==> r.price == price(r.asset)) &&
              exists j :: 0 <= j < |bs| && bs[j].asset == r.asset && r.amount == Amount(bs[j], offline)
  {
    CollectedFollowsKeptIndices(bs, |bs|, offline, price);
    KeptIndicesAreTheNonZeroBalances(bs, |bs|, offline);
    forall k | 0 <= k < |Collected(bs, |bs|, offline, price)|
      ensures exists j :: 0 <= j < |bs| && bs[j].asset == Collected(bs, |bs|, offline, price)[k].asset &&
                Collected(bs, |bs|, offline, price)[k].amount == Amount(bs[j], offline)
    {
      var j := KeptIndices(bs, |bs|, offline)[k];
      assert j in KeptIndices(bs, |bs|, offline);
    }
  }

  /** The price feed is asked exactly about the non-USDT assets of kept
      balances; in particular never about USDT. */
  lemma {:induction false} LookupsAreTheKeptNonUsdtAssets(bs: seq<Balance>, n: nat, offline: map<string, real>)
    requires n <= |bs|
    ensures USDT !in Lookups(bs, n, offline)
    ensures forall x :: x in Lookups(bs, n, offline) <==>
              x != USDT && exists j :: 0 <= j < n && bs[j].asset == x && Amount(bs[j], offline) != 0.0
  {
    if n > 0 {
      LookupsAreTheKeptNonUsdtAssets(bs, n - 1, offline);
      forall x | x != USDT && (exists j :: 0 <= j < n && bs[j].asset == x && Amount(bs[j], offline) != 0.0)
        ensures x in Lookups(bs, n, offline)
      {
        var j :| 0 <= j < n && bs[j].asset == x && Amount(bs[j], offline) != 0.0;
        if j < n - 1 {
          assert x in Lookups(bs, n - 1, offline);
        }
      }
    }
  }

  /** The valuation depends on the price feed only through the symbols it
      looks up: two feeds that agree on those give the same rows. */
  lemma {:induction false} CollectedDependsOnlyOnLookups(bs: seq<Balance>, n: nat, offline: map<string, real>,
                                                         p1: string -> real, p2: string -> real)
    requires n <= |bs|
    requires forall x :: x in Lookups(bs, n, offline) ==> p1(x) == p2(x)
    ensures Collected(bs, n, offline, p1) == Collected(bs, n, offline, p2)
  {
    if n > 0 {
      assert forall x :: x in Lookups(bs, n - 1, offline) ==> x in Lookups(bs, n, offline);
      CollectedDependsOnlyOnLookups(bs, n - 1, offline, p1, p2);
      var b := bs[n - 1];
      if Amount(b, offline) != 0.0 && b.asset != USDT {
        assert b.asset in Lookups(bs, n, offline);
      }
    }
  }

  /** Offline holdings matter only for assets that have an exchange balance:
      two offline maps that agree on the balances' assets give the same rows. */
  lemma {:induction false} OfflineOnlyAssetsAreIgnored(bs: seq<Balance>, n: nat, o1: map<string, real>,
                                                       o2: map<string, real>, price: string -> real)
    requires n <= |bs|
    requires forall j :: 0 <= j < n ==>
               (bs[j].asset in o1 <==> bs[j].asset in o2) &&
               (bs[j].asset in o1 ==> o1[bs[j].asset] == o2[bs[j].asset])
    ensures Collected(bs, n, o1, price) == Collected(bs, n, o2, price)
    ensures KeptIndices(bs, n, o1) == KeptIndices(bs, n, o2)
  {
    if n > 0 {
      OfflineOnlyAssetsAreIgnored(bs, n - 1, o1, o2, price);
      assert Amount(bs[n - 1], o1) == Amount(bs[n - 1], o2);
    }
  }

  /** With non-negative row values, the managed value lies between zero and
      the total value. */
  lemma {:induction false} ManagedValueBounded(rows: seq<AssetRow>, targets: map<string, real>)
    requires forall k :: 0 <= k < |rows| ==> Value(rows[k]) >= 0.0
    ensures 0.0 <= ManagedValue(rows, targets) <= TotalValue(rows)
  {
    if rows != [] {
      ManagedValueBounded(rows[..|rows| - 1], targets);
    }
  }

  /** When every row's alloc is its value over the total value, the allocs
      of all rows add up to 1. */
  lemma {:induction false} AllocsSumToOne(assets: seq<AssetRow>, rows: seq<AssetRow>)
    requires |rows| == |assets| && TotalValue(assets) != 0.0
    requires forall k :: 0 <= k < |rows| ==>
               !rows[k].Priced? && rows[k].alloc == Value(assets[k]) / TotalValue(assets)
    ensures SumAllocs(rows) == 1.0
  {
    AllocsSumPrefix(assets, rows, |rows|);
    assert rows[..|rows|] == rows;
    assert assets[..|assets|] == assets;
    DivSelf(TotalValue(assets));
  }

  lemma DivSelf(t: real)
    requires t != 0.0
    ensures t / t == 1.0
  {
  }

  lemma {:induction false} AllocsSumPrefix(assets: seq<AssetRow>, rows: seq<AssetRow>, n: nat)
    requires n <= |rows| == |assets| && TotalValue(assets) != 0.0
    requires forall k :: 0 <= k < |rows| ==>
               !rows[k].Priced? && rows[k].alloc == Value(assets[k]) / TotalValue(assets)
    ensures SumAllocs(rows[..n]) == TotalValue(assets[..n]) / TotalValue(assets)
  {
    if n > 0 {
      AllocsSumPrefix(assets, rows, n - 1);
      SumAllocsPrefixStep(rows, n);
      TotalValuePrefixStep(assets, n);
      assert rows[n - 1].alloc == Value(assets[n - 1]) / TotalValue(assets);
      DivAdd(TotalValue(assets[..n - 1]), Value(assets[n - 1]), TotalValue(assets));
    }
  }

  lemma SumAllocsPrefixStep(rows: seq<AssetRow>, n: nat)
    requires 0 < n <= |rows|
    requires forall k :: 0 <= k < |rows| ==> !rows[k].Priced?
    ensures SumAllocs(rows[..n]) == SumAllocs(rows[..n - 1]) + rows[n - 1].alloc
  {
    assert rows[..n][..n - 1] == rows[..n - 1];
  }

  lemma TotalValuePrefixStep(rows: seq<AssetRow>, n: nat)
    requires 0 < n <= |rows|
    ensures TotalValue(rows[..n]) == TotalValue(rows[..n - 1]) + Value(rows[n - 1])
  {
    assert rows[..n][..n - 1] == rows[..n - 1];
  }

  lemma DivAdd(a: real, v: real, t: real)
    requires t != 0.0
    ensures a / t + v / t == (a + v) / t
  {
  }
}
