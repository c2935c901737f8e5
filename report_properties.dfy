/** Properties of the aggregation that relate several operations: building a
    report does not depend on the order of the trades, every all-markets
    query equals the sum of the trades' individual contributions, gross
    profit is revenue minus costs, and an end-to-end example. */
module ReportProperties {
  import opened Wrappers
  import opened Decimal
  import opened Trades
  import opened Reports

  // Order independence

  lemma CreditCommutes(m: map<Key, real>, k1: Key, x1: real, k2: Key, x2: real)
    ensures Credit(Credit(m, k1, x1), k2, x2) == Credit(Credit(m, k2, x2), k1, x1)
  {
    var l := Credit(Credit(m, k1, x1), k2, x2);
    var r := Credit(Credit(m, k2, x2), k1, x1);
    assert l.Keys == r.Keys;
    forall k | k in l ensures l[k] == r[k] {
      assert l[k] == Get(l, k) && r[k] == Get(r, k);
    }
  }

  lemma ApplyCommutes(e: EntryState, p1: Option<Posting>, p2: Option<Posting>)
    ensures e.Apply(p1).Apply(p2) == e.Apply(p2).Apply(p1)
  {
    if p1.Some? && p2.Some? {
      var Posting(k1, v1, price1) := p1.value;
      var Posting(k2, v2, price2) := p2.value;
      CreditCommutes(e.mw, k1, v1, k2, v2);
      CreditCommutes(e.cashFlow, k1, Mul(v1, price1), k2, Mul(v2, price2));
    }
  }

  /** Two trades booked one after the other give the same areas map in
      either order: each touches only its own area's entry, and additions
      into one bucket commute. */
  lemma StepCommutes(m: map<Area, EntryState>, b1: Booking, b2: Booking)
    ensures Step(Step(m, b1), b2) == Step(Step(m, b2), b1)
  {
    if b1.area == b2.area {
      var e := if b1.area in m then m[b1.area] else EmptyEntry(b1.area);
      ApplyCommutes(e, b1.posting, b2.posting);
    } else {
      var l := Step(Step(m, b1), b2);
      var r := Step(Step(m, b2), b1);
      assert l.Keys == r.Keys;
      forall a | a in l ensures l[a] == r[a] { }
    }
  }

  lemma FoldSnoc<T>(xs: seq<T>, x: T, book: T -> Booking)
    ensures Fold(xs + [x], book) == Step(Fold(xs, book), book(x))
  {
    assert (xs + [x])[..|xs + [x]| - 1] == xs;
  }

  /** Folding `t` in the middle of a sequence is the same as folding it last. */
  lemma {:induction false} FoldMoveToEnd<T>(xs: seq<T>, t: T, ys: seq<T>, book: T -> Booking)
    ensures Fold(xs + [t] + ys, book) == Step(Fold(xs + ys, book), book(t))
    decreases |ys|
  {
    if ys == [] {
      assert xs + [t] + ys == xs + [t];
      assert xs + ys == xs;
      FoldSnoc(xs, t, book);
    } else {
      var ys' := ys[..|ys| - 1];
      var y := ys[|ys| - 1];
      assert xs + [t] + ys == (xs + [t] + ys') + [y];
      assert xs + ys == (xs + ys') + [y];
      calc {
        Fold(xs + [t] + ys, book);
        { FoldSnoc(xs + [t] + ys', y, book); }
        Step(Fold(xs + [t] + ys', book), book(y));
        { FoldMoveToEnd(xs, t, ys', book); }
        Step(Step(Fold(xs + ys', book), book(t)), book(y));
        { StepCommutes(Fold(xs + ys', book), book(t), book(y)); }
        Step(Step(Fold(xs + ys', book), book(y)), book(t));
        { FoldSnoc(xs + ys', y, book); }
        Step(Fold(xs + ys, book), book(t));
      }
    }
  }

  /** Order independence: any permutation of the same trades folds to the
      same areas map, so every arrival order of a fan-in builds the same
      report. */
  lemma {:induction false} FoldPermutation<T>(ts: seq<T>, us: seq<T>, book: T -> Booking)
    requires multiset(ts) == multiset(us)
    ensures Fold(ts, book) == Fold(us, book)
    decreases |ts|
  {
    if ts == [] {
      assert |us| == |multiset(us)| == 0;
    } else {
      var n := |ts| - 1;
      var t := ts[n];
      assert ts == ts[..n] + [t];
      assert t in multiset(us);
      var j :| 0 <= j < |us| && us[j] == t;
      var rest := us[..j] + us[j + 1..];
      assert us == us[..j] + [t] + us[j + 1..];
      assert multiset(us) == multiset(us[..j]) + multiset{t} + multiset(us[j + 1..]);
      assert multiset(ts) == multiset(ts[..n]) + multiset{t};
      assert multiset(rest) == multiset(us[..j]) + multiset(us[j + 1..]);
      assert multiset(ts[..n]) + multiset{t} == multiset(rest) + multiset{t};
      assert multiset(ts[..n]) == multiset(rest) by {
        var a, b := multiset(ts[..n]), multiset(rest);
        forall x ensures a[x] == b[x] {
          assert (a + multiset{t})[x] == (b + multiset{t})[x];
        }
      }
      FoldPermutation(ts[..n], rest, book);
      calc {
        Fold(ts, book);
        { FoldSnoc(ts[..n], t, book); }
        Step(Fold(ts[..n], book), book(t));
        Step(Fold(rest, book), book(t));
        { FoldMoveToEnd(us[..j], t, us[j + 1..], book); }
        Fold(us, book);
      }
    }
  }

  /** The same for the constructor: permuting the trades gives the same report. */
  lemma NewIsOrderIndependent(from: int, to: int, ts: seq<Trade>, us: seq<Trade>)
    requires multiset(ts) == multiset(us)
    ensures Report(from, to, Fold(ts, TradeBooking)) == Report(from, to, Fold(us, TradeBooking))
  {
    FoldPermutation(ts, us, TradeBooking);
  }

  /** A report holds an entry for exactly the areas its trades were routed
      to, priced or not. */
  lemma {:induction false} FoldAreas<T>(ts: seq<T>, book: T -> Booking)
    ensures Fold(ts, book).Keys == set i | 0 <= i < |ts| :: book(ts[i]).area
    decreases |ts|
  {
    if ts != [] {
      var n := |ts| - 1;
      FoldAreas(ts[..n], book);
      AreasOfSnoc(ts, ts[..n], book);
    }
  }

  /** The areas of a sequence: those of its prefix and its last one. */
  lemma AreasOfSnoc<T>(ts: seq<T>, prefix: seq<T>, book: T -> Booking)
    requires ts != [] && prefix == ts[..|ts| - 1]
    ensures (set i | 0 <= i < |ts| :: book(ts[i]).area)
         == (set i | 0 <= i < |prefix| :: book(prefix[i]).area) + {book(ts[|ts| - 1]).area}
  {
    var n := |ts| - 1;
    var before := set i | 0 <= i < n :: book(prefix[i]).area;
    var after := set i | 0 <= i < |ts| :: book(ts[i]).area;
    forall x ensures x in after <==> x in before + {book(ts[n]).area} {
      if x in after {
        var i :| 0 <= i < |ts| && book(ts[i]).area == x;
        if i < n { assert book(prefix[i]).area == x; }
      }
      if x in before {
        var i :| 0 <= i < n && book(prefix[i]).area == x;
        assert book(ts[i]).area == x;
      }
    }
  }

  // What each trade contributes to an all-markets query

  /** An independent account of one trade's share of a metric: nothing for an
      unpriced trade or one outside the selected area; otherwise its cash or
      volume, on the side the metric reads, with costs counting against gross
      profit. */
  function Contribution(b: Booking, selection: AreaSelection, metric: Metric): (r: real) {
    if b.posting.None? || (selection.Specific? && selection.area != b.area) then 0.0
    else
      var Posting((side, _), volume, price) := b.posting.value;
      match metric
      case Revenue => if side == Sell then Mul(volume, price) else 0.0
      case Costs => if side == Buy then Mul(volume, price) else 0.0
      case MwSold => if side == Sell then volume else 0.0
      case MwBought => if side == Buy then volume else 0.0
      case GrossProfit => if side == Sell then Mul(volume, price) else -Mul(volume, price)
  }

  function TotalContribution<T>(ts: seq<T>, book: T -> Booking, selection: AreaSelection, metric: Metric): (r: real)
    decreases |ts|
  {
    if ts == [] then 0.0
    else TotalContribution(ts[..|ts| - 1], book, selection, metric) + Contribution(book(ts[|ts| - 1]), selection, metric)
  }

  /** Crediting `x` to bucket `k` raises the all-markets total of `k`'s
      side by `x` and leaves the other side's total alone. */
  lemma SideTotalAfterCredit(m: map<Key, real>, m': map<Key, real>, side: TradeSide, k: Key, x: real)
    requires forall key :: Get(m', key) == Get(m, key) + (if key == k then x else 0.0)
    ensures SideTotal(m', side, MarketSelection.All) == SideTotal(m, side, MarketSelection.All) + (if k.0 == side then x else 0.0)
  {
    assert Get(m', (side, Market.Auction)) == Get(m, (side, Market.Auction)) + (if (side, Market.Auction) == k then x else 0.0);
    assert Get(m', (side, Market.Intraday)) == Get(m, (side, Market.Intraday)) + (if (side, Market.Intraday) == k then x else 0.0);
    assert Get(m', (side, Market.Imbalance)) == Get(m, (side, Market.Imbalance)) + (if (side, Market.Imbalance) == k then x else 0.0);
    var (s, market) := k;
    match market
    case Auction =>
    case Intraday =>
    case Imbalance =>
  }

  /** The all-markets metric of an entry after one posting is the metric
      before plus that posting's contribution. */
  lemma MeasureAfterApply(e: EntryState, p: Option<Posting>, metric: Metric)
    ensures e.Apply(p).Measure(metric, MarketSelection.All)
         == e.Measure(metric, MarketSelection.All) + Contribution(Booking(e.area, p), AreaSelection.All, metric)
  {
    if p.Some? {
      var e' := e.Apply(p);
      var Posting(k, volume, price) := p.value;
      SideTotalAfterCredit(e.mw, e'.mw, Sell, k, volume);
      SideTotalAfterCredit(e.mw, e'.mw, Buy, k, volume);
      SideTotalAfterCredit(e.cashFlow, e'.cashFlow, Sell, k, Mul(volume, price));
      SideTotalAfterCredit(e.cashFlow, e'.cashFlow, Buy, k, Mul(volume, price));
    }
  }

  /** A new area's entry answers every all-markets query with zero. */
  lemma EmptyMeasure(area: Area, metric: Metric)
    ensures EmptyEntry(area).Measure(metric, MarketSelection.All) == 0.0
  {
  }

  /** The metric at one area: zero when the map has no entry there. */
  function MeasureAt(m: map<Area, EntryState>, a: Area, metric: Metric): (r: real) {
    if a in m then m[a].Measure(metric, MarketSelection.All) else 0.0
  }

  lemma {:induction false} AreaSumUpdate(
    m: map<Area, EntryState>, m': map<Area, EntryState>, order: seq<Area>,
    a: Area, delta: real, metric: Metric)
    requires forall x :: x != a ==> (x in m <==> x in m') && (x in m ==> m[x] == m'[x])
    requires MeasureAt(m', a, metric) == MeasureAt(m, a, metric) + delta
    requires forall i, j :: 0 <= i < j < |order| ==> order[i] != order[j]
    ensures AreaSum(m', order, MarketSelection.All, metric)
         == AreaSum(m, order, MarketSelection.All, metric) + (if a in order then delta else 0.0)
    decreases |order|
  {
    if order != [] {
      AreaSumUpdate(m, m', order[1..], a, delta, metric);
      assert order[0] == a ==> a !in order[1..];
      assert order[0] != a ==> (a in order <==> a in order[1..]);
      assert MeasureAt(m', order[0], metric) == MeasureAt(m, order[0], metric) + (if order[0] == a then delta else 0.0);
    }
  }

  /** At the trade's own area the all-markets metric grows by the trade's
      contribution; every other area keeps its entry. */
  lemma StepMeasureAt(m: map<Area, EntryState>, b: Booking, metric: Metric)
    ensures MeasureAt(Step(m, b), b.area, metric) == MeasureAt(m, b.area, metric) + Contribution(b, AreaSelection.All, metric)
    ensures forall x :: x != b.area ==> (x in m <==> x in Step(m, b)) && (x in m ==> m[x] == Step(m, b)[x])
  {
    var e := if b.area in m then m[b.area] else EmptyEntry(b.area);
    MeasureAfterApply(e, b.posting, metric);
    EmptyMeasure(b.area, metric);
    assert Contribution(Booking(e.area, b.posting), AreaSelection.All, metric) == Contribution(b, AreaSelection.All, metric);
  }

  /** Booking one trade raises every all-markets query by exactly that
      trade's contribution. */
  lemma StepAggregate(r: Report, b: Booking, selection: AreaSelection, metric: Metric)
    ensures r.(areas := Step(r.areas, b)).AggregateMetric(MarketSelection.All, selection, metric)
         == r.AggregateMetric(MarketSelection.All, selection, metric) + Contribution(b, selection, metric)
  {
    StepMeasureAt(r.areas, b, metric);
    match selection
    case All =>
      AreaSumUpdate(r.areas, Step(r.areas, b), AllAreas(), b.area, Contribution(b, AreaSelection.All, metric), metric);
    case Specific(a) =>
      SpecificIsMeasureAt(r, a, metric);
      SpecificIsMeasureAt(r.(areas := Step(r.areas, b)), a, metric);
  }

  lemma SpecificIsMeasureAt(r: Report, a: Area, metric: Metric)
    ensures r.AggregateMetric(MarketSelection.All, AreaSelection.Specific(a), metric) == MeasureAt(r.areas, a, metric)
  {
  }

  lemma {:induction false} AreaSumEmpty(order: seq<Area>, metric: Metric)
    ensures AreaSum(map[], order, MarketSelection.All, metric) == 0.0
    decreases |order|
  {
    if order != [] {
      AreaSumEmpty(order[1..], metric);
    }
  }

  /** Closed form of every all-markets query on a built report: the sum of
      the contributions of the trades, one by one. */
  lemma {:induction false} FoldAggregate<T>(
    from: int, to: int, ts: seq<T>, book: T -> Booking, selection: AreaSelection, metric: Metric)
    ensures Report(from, to, Fold(ts, book)).AggregateMetric(MarketSelection.All, selection, metric)
         == TotalContribution(ts, book, selection, metric)
    decreases |ts|
  {
    if ts == [] {
      AreaSumEmpty(AllAreas(), metric);
    } else {
      var n := |ts| - 1;
      FoldAggregate(from, to, ts[..n], book, selection, metric);
      StepAggregate(Report(from, to, Fold(ts[..n], book)), book(ts[n]), selection, metric);
    }
  }

  /** An unpriced trade still gets its area an entry (the entry is created
      before the price is looked at) but leaves every existing entry as it
      was and adds nothing to any all-markets query. */
  lemma UnpricedTradeAddsNothing(r: Report, t: Trade, selection: AreaSelection, metric: Metric)
    requires t.price.None?
    ensures Step(r.areas, TradeBooking(t)).Keys == r.areas.Keys + {t.area}
    ensures forall a :: a in r.areas ==> Step(r.areas, TradeBooking(t))[a] == r.areas[a]
    ensures t.area !in r.areas ==> Step(r.areas, TradeBooking(t))[t.area] == EmptyEntry(t.area)
    ensures r.(areas := Step(r.areas, TradeBooking(t))).AggregateMetric(MarketSelection.All, selection, metric)
         == r.AggregateMetric(MarketSelection.All, selection, metric)
  {
    StepAggregate(r, TradeBooking(t), selection, metric);
  }

  /** The entry an unpriced trade creates is empty, so a specific-market
      query on its area, which `unwrap`s a bucket, panics; before the trade
      the same query read zero. */
  lemma UnpricedTradeBreaksSpecificQuery(from: int, to: int, t: Trade, m: Market, metric: Metric)
    requires t.price.None?
    ensures var before := Report(from, to, Fold([], TradeBooking));
      && before.Answers(MarketSelection.Specific(m), AreaSelection.Specific(t.area), metric)
      && before.AggregateMetric(MarketSelection.Specific(m), AreaSelection.Specific(t.area), metric) == 0.0
    ensures !Report(from, to, Fold([t], TradeBooking)).Answers(MarketSelection.Specific(m), AreaSelection.Specific(t.area), metric)
  {
    assert [t][..0] == [];
  }

  /** An area no trade was routed to reads as zero in every query,
      whatever the market selection, and no query on it can panic. */
  lemma UntradedAreaIsZero<T>(
    from: int, to: int, ts: seq<T>, book: T -> Booking, a: Area, market: MarketSelection)
    requires forall i :: 0 <= i < |ts| ==> book(ts[i]).area != a
    ensures var r := Report(from, to, Fold(ts, book));
      && (forall metric :: r.Answers(market, AreaSelection.Specific(a), metric))
      && r.Revenue(market, AreaSelection.Specific(a)) == 0.0
      && r.Costs(market, AreaSelection.Specific(a)) == 0.0
      && r.MwSold(market, AreaSelection.Specific(a)) == 0.0
      && r.MwBought(market, AreaSelection.Specific(a)) == 0.0
      && r.GrossProfit(market, AreaSelection.Specific(a)) == 0.0
  {
    FoldAreas(ts, book);
    RoundDpExact(0.0, 1);
    RoundDpExact(0.0, 2);
  }

  // Gross profit

  lemma {:induction false} AreaSumGrossProfit(areas: map<Area, EntryState>, order: seq<Area>, market: MarketSelection)
    requires forall a :: a in areas ==> areas[a].Answers(Metric.GrossProfit, market)
    ensures AreaSum(areas, order, market, Metric.GrossProfit)
         == AreaSum(areas, order, market, Metric.Revenue) - AreaSum(areas, order, market, Metric.Costs)
    decreases |order|
  {
    if order != [] {
      AreaSumGrossProfit(areas, order[1..], market);
    }
  }

  /** Before rounding, gross profit is revenue minus costs for every market
      and area selection. */
  lemma GrossProfitIsRevenueMinusCosts(r: Report, market: MarketSelection, selection: AreaSelection)
    requires r.Answers(market, selection, Metric.GrossProfit)
    ensures r.Answers(market, selection, Metric.Revenue) && r.Answers(market, selection, Metric.Costs)
    ensures r.AggregateMetric(market, selection, Metric.GrossProfit)
         == r.AggregateMetric(market, selection, Metric.Revenue) - r.AggregateMetric(market, selection, Metric.Costs)
  {
    if selection.All? {
      AreaSumGrossProfit(r.areas, AllAreas(), market);
    }
  }

  /** After rounding, the three money queries are rounded separately, so
      gross profit can differ from revenue minus costs, by at most one cent. */
  lemma GrossProfitRoundingGap(r: Report, market: MarketSelection, selection: AreaSelection)
    requires r.Answers(market, selection, Metric.GrossProfit)
    ensures r.Answers(market, selection, Metric.Revenue) && r.Answers(market, selection, Metric.Costs)
    ensures -0.01 <= r.GrossProfit(market, selection) - (r.Revenue(market, selection) - r.Costs(market, selection)) <= 0.01
  {
    GrossProfitIsRevenueMinusCosts(r, market, selection);
    RoundedDifferenceGap(r.AggregateMetric(market, selection, Metric.Revenue), r.AggregateMetric(market, selection, Metric.Costs));
  }

  /** The gap is real: a one-hour sale of 0.015 MWh and a one-hour purchase
      of 0.005 MWh, both at 1.0, give revenue 0.015, which rounds up to 0.02,
      and costs 0.005, which round down to 0.00 (both ties, to the even
      cent). Their difference, 0.01, is already whole cents. */
  lemma GrossProfitRoundingGapExample(a: Area)
    ensures var r := GapReport(a);
            && r.Revenue(MarketSelection.All, AreaSelection.All) == 0.02
            && r.Costs(MarketSelection.All, AreaSelection.All) == 0.0
            && r.GrossProfit(MarketSelection.All, AreaSelection.All) == 0.01
  {
    FoldAggregate(0, 3600, GapTrades(a), TradeBooking, AreaSelection.All, Metric.Revenue);
    FoldAggregate(0, 3600, GapTrades(a), TradeBooking, AreaSelection.All, Metric.Costs);
    FoldAggregate(0, 3600, GapTrades(a), TradeBooking, AreaSelection.All, Metric.GrossProfit);
    GapTotals(a);
    CentTies();
  }

  /** The report the two trades build; as any report, it answers every
      all-markets query. */
  function GapReport(a: Area): (r: Report)
    ensures r.areas == Fold(GapTrades(a), TradeBooking)
    ensures forall metric :: r.Answers(MarketSelection.All, AreaSelection.All, metric)
  {
    var r := Report(0, 3600, Fold(GapTrades(a), TradeBooking));
    AllMarketsAnswer(r);
    r
  }

  /** An all-markets query never `unwrap`s, so every report answers it. */
  lemma AllMarketsAnswer(r: Report)
    ensures forall metric :: r.Answers(MarketSelection.All, AreaSelection.All, metric)
  {
  }

  function GapTrades(a: Area): seq<Trade> {
    [ Trade(1, a, Nordpool, 3600, 0, Some(1.0), 0.015, Sell, AuctionEurDahH),
      Trade(2, a, Nordpool, 3600, 0, Some(1.0), 0.005, Buy, AuctionEurDahH) ]
  }

  lemma GapTotals(a: Area)
    ensures TotalContribution(GapTrades(a), TradeBooking, AreaSelection.All, Metric.Revenue) == 0.015
    ensures TotalContribution(GapTrades(a), TradeBooking, AreaSelection.All, Metric.Costs) == 0.005
    ensures TotalContribution(GapTrades(a), TradeBooking, AreaSelection.All, Metric.GrossProfit) == 0.01
  {
    var ts := GapTrades(a);
    assert ts[..1] == [ts[0]] && [ts[0]][..0] == [];
    assert ContractLength(0, 3600) == 1.0;
    assert TradeBooking(ts[0]).posting.value.volume == 0.015;
    assert TradeBooking(ts[1]).posting.value.volume == 0.005;
  }

  /** Half a cent rounds to the even cent: 1.5 cents up, 0.5 cents down. */
  lemma CentTies()
    ensures RoundDp(0.015, 2) == 0.02 && RoundDp(0.005, 2) == 0.0 && RoundDp(0.01, 2) == 0.01
  {
    assert Pow10(2) == 100;
    assert Scaled(0.015, 2) == 1.5 && Scaled(0.005, 2) == 0.5 && Scaled(0.01, 2) == 1.0;
    assert RoundHalfEven(1.5) == 2;
    assert RoundHalfEven(0.5) == 0;
    assert RoundHalfEven(1.0) == 1;
  }

  // Worked cases

  /** A two-hour contract books twice its quantity. */
  lemma TwoHourContractDoublesQuantity(t: Trade)
    requires t.price.Some?
    requires t.deliveryEnd == t.deliveryStart + 7200
    ensures TradeBooking(t).posting.Some?
    ensures TradeBooking(t).posting.value.volume == 2.0 * Abs(t.quantityMwh)
    ensures Mul(TradeBooking(t).posting.value.volume, t.price.value) == Mul(2.0 * Abs(t.quantityMwh), t.price.value)
  {
    assert ContractLength(t.deliveryStart, t.deliveryEnd) == 2.0;
  }

  /** A report of one priced one-hour Intraday purchase: its area's Intraday
      volume bought is the absolute quantity and its Intraday costs are that
      volume times the price, each rounded once. */
  lemma SingleIntradayPurchase(from: int, to: int, t: Trade)
    requires t.price.Some? && t.tradeSide == Buy && t.tradeType == TradeType.Intraday
    requires t.deliveryEnd == t.deliveryStart + 3600
    ensures var r := Report(from, to, Fold([t], TradeBooking));
      var market, area := MarketSelection.Specific(Market.Intraday), AreaSelection.Specific(t.area);
      && r.Answers(market, area, Metric.MwBought)
      && r.Answers(market, area, Metric.Costs)
      && r.MwBought(market, area) == RoundDp(Abs(t.quantityMwh), 1)
      && r.Costs(market, area) == RoundDp(Mul(Abs(t.quantityMwh), t.price.value), 2)
      && (IsRounded(Abs(t.quantityMwh), 1) ==> r.MwBought(market, area) == Abs(t.quantityMwh))
  {
    var key := (Buy, Market.Intraday);
    var volume := Abs(t.quantityMwh);
    var cash := Mul(volume, t.price.value);
    assert ContractLength(t.deliveryStart, t.deliveryEnd) == 1.0;
    assert TradeBooking(t) == Booking(t.area, Some(Posting(key, volume, t.price.value)));
    var e := EntryState(t.area, map[key := volume], map[key := cash]);
    assert EmptyEntry(t.area).Apply(TradeBooking(t).posting) == e;
    FoldSnoc([], t, TradeBooking);
    assert [] + [t] == [t];
    assert Fold([t], TradeBooking) == map[t.area := e];
    if IsRounded(volume, 1) {
      RoundDpExact(volume, 1);
    }
  }

  /** Three one-hour trades: in area `a` a purchase of 10 MWh Intraday at 50
      and a sale of 4 MWh Auction at 80, in area `b` a purchase of 5 MWh
      Intraday at 60. */
  function ScenarioTrades(a: Area, b: Area): seq<Trade> {
    [ Trade(1, a, CounterPart.Nordpool, 3600, 0, Some(50.0), 10.0, Buy, TradeType.Intraday),
      Trade(2, a, CounterPart.Nordpool, 3600, 0, Some(80.0), 4.0, Sell, TradeType.AuctionEurDahH),
      Trade(3, b, CounterPart.Nordpool, 3600, 0, Some(60.0), 5.0, Buy, TradeType.Intraday) ]
  }

  /** The scenario's postings. */
  lemma ScenarioBookings(a: Area, b: Area)
    ensures TradeBooking(ScenarioTrades(a, b)[0]) == Booking(a, Some(Posting((Buy, Market.Intraday), 10.0, 50.0)))
    ensures TradeBooking(ScenarioTrades(a, b)[1]) == Booking(a, Some(Posting((Sell, Market.Auction), 4.0, 80.0)))
    ensures TradeBooking(ScenarioTrades(a, b)[2]) == Booking(b, Some(Posting((Buy, Market.Intraday), 5.0, 60.0)))
  {
    assert ContractLength(0, 3600) == 1.0;
  }

  /** The two entries the scenario ends with. */
  function ScenarioFirst(a: Area): EntryState {
    var bi, sa := (Buy, Market.Intraday), (Sell, Market.Auction);
    EntryState(a, map[bi := 10.0, sa := 4.0], map[bi := 500.0, sa := 320.0])
  }

  function ScenarioSecond(b: Area): EntryState {
    EntryState(b, map[(Buy, Market.Intraday) := 5.0], map[(Buy, Market.Intraday) := 300.0])
  }

  lemma ScenarioFold(a: Area, b: Area)
    requires a != b
    ensures Fold(ScenarioTrades(a, b), TradeBooking) == map[a := ScenarioFirst(a), b := ScenarioSecond(b)]
  {
    var ts := ScenarioTrades(a, b);
    var bi := (Buy, Market.Intraday);
    var e1 := EntryState(a, map[bi := 10.0], map[bi := 500.0]);
    ScenarioBookings(a, b);
    assert ts[..1] == [] + [ts[0]];
    assert ts[..2] == ts[..1] + [ts[1]];
    assert ts == ts[..2] + [ts[2]];
    FoldSnoc([], ts[0], TradeBooking);
    ScenarioStep1(a, TradeBooking(ts[0]));
    FoldSnoc(ts[..1], ts[1], TradeBooking);
    ScenarioStep2(a, TradeBooking(ts[1]));
    FoldSnoc(ts[..2], ts[2], TradeBooking);
    ScenarioStep3(a, b, TradeBooking(ts[2]));
  }

  lemma ScenarioStep1(a: Area, bk: Booking)
    requires bk == Booking(a, Some(Posting((Buy, Market.Intraday), 10.0, 50.0)))
    ensures Step(map[], bk) == map[a := EntryState(a, map[(Buy, Market.Intraday) := 10.0], map[(Buy, Market.Intraday) := 500.0])]
  {
    assert Mul(10.0, 50.0) == 500.0;
  }

  lemma ScenarioStep2(a: Area, bk: Booking)
    requires bk == Booking(a, Some(Posting((Sell, Market.Auction), 4.0, 80.0)))
    ensures Step(map[a := EntryState(a, map[(Buy, Market.Intraday) := 10.0], map[(Buy, Market.Intraday) := 500.0])], bk)
         == map[a := ScenarioFirst(a)]
  {
    assert Mul(4.0, 80.0) == 320.0;
  }

  lemma ScenarioStep3(a: Area, b: Area, bk: Booking)
    requires a != b
    requires bk == Booking(b, Some(Posting((Buy, Market.Intraday), 5.0, 60.0)))
    ensures Step(map[a := ScenarioFirst(a)], bk) == map[a := ScenarioFirst(a), b := ScenarioSecond(b)]
  {
    assert Mul(5.0, 60.0) == 300.0;
  }

  /** The rounding the scenario's totals go through changes nothing. */
  lemma ScenarioRounding()
    ensures RoundDp(320.0, 2) == 320.0 && RoundDp(500.0, 2) == 500.0
    ensures RoundDp(-180.0, 2) == -180.0 && RoundDp(5.0, 1) == 5.0
  {
    assert Pow10(2) == 100 && Pow10(1) == 10;
    assert Scaled(320.0, 2) == 32000 as real && Scaled(500.0, 2) == 50000 as real;
    assert Scaled(-180.0, 2) == -18000 as real && Scaled(5.0, 1) == 50 as real;
    IntWhole(32000);
    IntWhole(50000);
    IntWhole(-18000);
    IntWhole(50);
    RoundDpExact(320.0, 2);
    RoundDpExact(500.0, 2);
    RoundDpExact(-180.0, 2);
    RoundDpExact(5.0, 1);
  }

  /** The scenario's totals before rounding. */
  lemma ScenarioTotals(a: Area, b: Area)
    requires a != b
    ensures var r := Report(0, 3600, Fold(ScenarioTrades(a, b), TradeBooking));
      var all := MarketSelection.All;
      && r.AggregateMetric(all, AreaSelection.Specific(a), Metric.Revenue) == 320.0
      && r.AggregateMetric(all, AreaSelection.Specific(a), Metric.Costs) == 500.0
      && r.AggregateMetric(all, AreaSelection.Specific(a), Metric.GrossProfit) == -180.0
      && r.AggregateMetric(all, AreaSelection.Specific(b), Metric.MwBought) == 5.0
  {
    ScenarioFold(a, b);
    ScenarioQueries(Fold(ScenarioTrades(a, b), TradeBooking), a, b);
  }

  lemma ScenarioQueries(m: map<Area, EntryState>, a: Area, b: Area)
    requires a != b
    requires m == map[a := ScenarioFirst(a), b := ScenarioSecond(b)]
    ensures var r := Report(0, 3600, m);
      var all := MarketSelection.All;
      && r.AggregateMetric(all, AreaSelection.Specific(a), Metric.Revenue) == 320.0
      && r.AggregateMetric(all, AreaSelection.Specific(a), Metric.Costs) == 500.0
      && r.AggregateMetric(all, AreaSelection.Specific(a), Metric.GrossProfit) == -180.0
      && r.AggregateMetric(all, AreaSelection.Specific(b), Metric.MwBought) == 5.0
  {
    assert m[a] == ScenarioFirst(a) && m[b] == ScenarioSecond(b);
    assert ScenarioFirst(a).Revenue(MarketSelection.All) == 320.0;
    assert ScenarioFirst(a).Costs(MarketSelection.All) == 500.0;
    assert ScenarioSecond(b).MwBought(MarketSelection.All) == 5.0;
  }

  /** The end-to-end example: revenue 320.00, costs 500.00 and
      gross profit -180.00 in area `a`, and 5.0 MWh bought in area `b`. */
  lemma Scenario(a: Area, b: Area)
    requires a != b
    ensures var r := Report(0, 3600, Fold(ScenarioTrades(a, b), TradeBooking));
      var all := MarketSelection.All;
      && r.Revenue(all, AreaSelection.Specific(a)) == 320.0
      && r.Costs(all, AreaSelection.Specific(a)) == 500.0
      && r.GrossProfit(all, AreaSelection.Specific(a)) == -180.0
      && r.MwBought(all, AreaSelection.Specific(b)) == 5.0
  {
    ScenarioTotals(a, b);
    ScenarioRounding();
  }
}
