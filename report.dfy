/** The aggregation engine of src/report.rs: a per-area accumulator
    (`ReportEntry`) that books each priced trade into one (side, market)
    bucket of its volume and cash-flow totals, the report that folds a
    sequence of trades into one accumulator per area, and the revenue, cost,
    volume and gross-profit queries over a finished report. */
module Reports {
  import opened Wrappers
  import opened Decimal
  import opened Trades

  /** The key of a bucket: `(TradeSide, Market)`. */
  type Key = (TradeSide, Market)

  /** The ways building a report fails. */
  datatype Error =
    | InvalidWindow       // delivery_to is before delivery_from
    | AreaMismatch        // a trade was handed to another area's entry
    | Source(message: string)  // the trade stream yielded an error

  /** `contract_length`: the delivery interval in hours, from a whole number
      of seconds divided by 3600. The conversions it checks cannot fail on a
      whole number of seconds, so the model has no error path for it. */
  function ContractLength(deliveryStart: int, deliveryEnd: int): (hours: real)
    ensures hours * 3600.0 == (deliveryEnd - deliveryStart) as real
    ensures deliveryStart <= deliveryEnd ==> hours >= 0.0
  {
    (deliveryEnd - deliveryStart) as real / 3600.0
  }

  /** A bucket's total; a key that is not there reads as zero, as with
      `or_insert(Decimal::ZERO)` and `unwrap_or(&Decimal::ZERO)`. */
  function Get(m: map<Key, real>, k: Key): (r: real) {
    if k in m then m[k] else 0.0
  }

  /** `*m.entry(k).or_insert(Decimal::ZERO) += x`. */
  function Credit(m: map<Key, real>, k: Key, x: real): (r: map<Key, real>)
    ensures r.Keys == m.Keys + {k}
    ensures Get(r, k) == Get(m, k) + x
    ensures forall k' :: k' != k ==> Get(r, k') == Get(m, k')
  {
    m[k := Get(m, k) + x]
  }

  /** What one priced trade adds: `volume` (|quantity| times contract
      length) into bucket `key` of the volume totals, and volume times price
      into the same bucket of the cash-flow totals. */
  datatype Posting = Posting(key: Key, volume: real, price: real)

  /** A trade as the accumulation sees it: the area whose entry it is routed
      to, and its posting, absent when the trade has no price. */
  datatype Booking = Booking(area: Area, posting: Option<Posting>)

  /** How `add_trade` books a trade: into the bucket of its own side and of
      the market of its type, with the absolute, length-adjusted quantity. */
  function TradeBooking(t: Trade): (b: Booking)
    ensures b.area == t.area
    ensures b.posting.None? <==> t.price.None?
    ensures b.posting.Some? ==>
      && b.posting.value.key == (t.tradeSide, MarketOf(t.tradeType))
      && b.posting.value.price == t.price.value
      && b.posting.value.volume == Mul(Abs(t.quantityMwh), ContractLength(t.deliveryStart, t.deliveryEnd))
      && (t.deliveryStart <= t.deliveryEnd ==> b.posting.value.volume >= 0.0)
  {
    match t.price
    case None => Booking(t.area, None)
    case Some(price) =>
      var market := MarketOf(t.tradeType);
      var length := ContractLength(t.deliveryStart, t.deliveryEnd);
      Booking(t.area, Some(Posting((t.tradeSide, market), Mul(Abs(t.quantityMwh), length), price)))
  }

  /** How `add_trade_for_report` books a trade that has no side column: a
      negative quantity is a sale, anything else (zero included) a purchase,
      and the stored volume is the absolute value. */
  function TradeForReportBooking(t: TradeForReport): (b: Booking)
    ensures b.area == t.area
    ensures b.posting.None? <==> t.price.None?
    ensures b.posting.Some? ==>
      && (b.posting.value.key.0 == Sell <==> t.quantityMwh < 0.0)
      && b.posting.value.key.1 == MarketOf(t.tradeType)
      && b.posting.value.price == t.price.value
      && b.posting.value.volume == Mul(Abs(t.quantityMwh), ContractLength(t.deliveryStart, t.deliveryEnd))
      && (t.deliveryStart <= t.deliveryEnd ==> b.posting.value.volume >= 0.0)
  {
    match t.price
    case None => Booking(t.area, None)
    case Some(price) =>
      var side := if t.quantityMwh < 0.0 then Sell else Buy;
      var market := MarketOf(t.tradeType);
      var length := ContractLength(t.deliveryStart, t.deliveryEnd);
      Booking(t.area, Some(Posting((side, market), Mul(Abs(t.quantityMwh), length), price)))
  }

  /** The sum over `markets` of a side's buckets, missing ones counting as zero. */
  function MarketSum(m: map<Key, real>, side: TradeSide, markets: seq<Market>): (r: real) {
    if markets == [] then 0.0 else Get(m, (side, markets[0])) + MarketSum(m, side, markets[1..])
  }

  /** A specific market's query `unwrap`s its bucket, so the bucket must be
      there; the all-markets query never fails. */
  predicate HasBucket(m: map<Key, real>, side: TradeSide, market: MarketSelection) {
    market.All? || (side, market.market) in m
  }

  /** The body shared by the four per-entry queries: one market's bucket, or
      the side's buckets summed over `Market::iter()`. */
  function SideTotal(m: map<Key, real>, side: TradeSide, market: MarketSelection): (r: real)
    requires HasBucket(m, side, market)
    ensures market.All? ==>
      r == Get(m, (side, Market.Auction)) + Get(m, (side, Market.Intraday)) + Get(m, (side, Market.Imbalance))
    ensures market.Specific? ==> r == Get(m, (side, market.market))
  {
    match market
    case Specific(mk) => m[(side, mk)]
    case All =>
      MarketSumOfMarkets(m, side);
      MarketSum(m, side, Markets())
  }

  lemma MarketSumOfMarkets(m: map<Key, real>, side: TradeSide)
    ensures MarketSum(m, side, Markets())
         == Get(m, (side, Market.Auction)) + Get(m, (side, Market.Intraday)) + Get(m, (side, Market.Imbalance))
  {
    var ms := Markets();
    assert ms == [Market.Auction, Market.Intraday, Market.Imbalance];
    assert ms[1..][1..][1..] == [];
    assert MarketSum(m, side, ms[1..][1..]) == Get(m, (side, Market.Imbalance));
    assert MarketSum(m, side, ms[1..]) == Get(m, (side, Market.Intraday)) + Get(m, (side, Market.Imbalance));
  }

  /** `aggregate_metric` receives a closure choosing the per-entry query;
      the model names the five closures the report passes. */
  datatype Metric = Revenue | Costs | MwSold | MwBought | GrossProfit

  /** The value of a `ReportEntry`: its area and its two totals maps. */
  datatype EntryState = EntryState(area: Area, mw: map<Key, real>, cashFlow: map<Key, real>) {

    /** Books one posting; no posting (an unpriced trade) changes nothing.
        Only the posting's bucket grows, in both maps. */
    function Apply(p: Option<Posting>): (e: EntryState)
      ensures e.area == area
      ensures p.None? ==> e == this
      ensures p.Some? ==> e.mw.Keys == mw.Keys + {p.value.key} && e.cashFlow.Keys == cashFlow.Keys + {p.value.key}
      ensures p.Some? ==> forall k :: Get(e.mw, k) == Get(mw, k) + (if k == p.value.key then p.value.volume else 0.0)
      ensures p.Some? ==> forall k ::
        Get(e.cashFlow, k) == Get(cashFlow, k) + (if k == p.value.key then Mul(p.value.volume, p.value.price) else 0.0)
    {
      if p.None? then this
      else
        var Posting(k, volume, price) := p.value;
        EntryState(area, Credit(mw, k, volume), Credit(cashFlow, k, Mul(volume, price)))
    }

    predicate Answers(metric: Metric, market: MarketSelection) {
      match metric
      case Revenue => HasBucket(cashFlow, Sell, market)
      case Costs => HasBucket(cashFlow, Buy, market)
      case MwSold => HasBucket(mw, Sell, market)
      case MwBought => HasBucket(mw, Buy, market)
      case GrossProfit => HasBucket(cashFlow, Sell, market) && HasBucket(cashFlow, Buy, market)
    }

    /** `ReportEntry::revenue`: cash flow of sales. */
    function Revenue(market: MarketSelection): (r: real)
      requires HasBucket(cashFlow, Sell, market)
      ensures market.Specific? ==> r == cashFlow[(Sell, market.market)]
      ensures market.All? ==> r == Get(cashFlow, (Sell, Market.Auction)) + Get(cashFlow, (Sell, Market.Intraday))
                                 + Get(cashFlow, (Sell, Market.Imbalance))
    {
      SideTotal(cashFlow, Sell, market)
    }

    /** `ReportEntry::costs`: cash flow of purchases. */
    function Costs(market: MarketSelection): (r: real)
      requires HasBucket(cashFlow, Buy, market)
      ensures market.Specific? ==> r == cashFlow[(Buy, market.market)]
      ensures market.All? ==> r == Get(cashFlow, (Buy, Market.Auction)) + Get(cashFlow, (Buy, Market.Intraday))
                                 + Get(cashFlow, (Buy, Market.Imbalance))
    {
      SideTotal(cashFlow, Buy, market)
    }

    /** `ReportEntry::mw_sold`. */
    function MwSold(market: MarketSelection): (r: real)
      requires HasBucket(mw, Sell, market)
      ensures market.Specific? ==> r == mw[(Sell, market.market)]
      ensures market.All? ==> r == Get(mw, (Sell, Market.Auction)) + Get(mw, (Sell, Market.Intraday))
                                 + Get(mw, (Sell, Market.Imbalance))
    {
      SideTotal(mw, Sell, market)
    }

    /** `ReportEntry::mw_bought`. */
    function MwBought(market: MarketSelection): (r: real)
      requires HasBucket(mw, Buy, market)
      ensures market.Specific? ==> r == mw[(Buy, market.market)]
      ensures market.All? ==> r == Get(mw, (Buy, Market.Auction)) + Get(mw, (Buy, Market.Intraday))
                                 + Get(mw, (Buy, Market.Imbalance))
    {
      SideTotal(mw, Buy, market)
    }

    /** `ReportEntry::gross_profit`. */
    function GrossProfit(market: MarketSelection): (r: real)
      requires HasBucket(cashFlow, Sell, market) && HasBucket(cashFlow, Buy, market)
      ensures market.Specific? ==> r == cashFlow[(Sell, market.market)] - cashFlow[(Buy, market.market)]
      ensures market.All? ==> r == SideTotal(cashFlow, Sell, market) - SideTotal(cashFlow, Buy, market)
    {
      Revenue(market) - Costs(market)
    }

    /** The closure `|entry, market| entry.<metric>(market)`. */
    function Measure(metric: Metric, market: MarketSelection): (r: real)
      requires Answers(metric, market)
      ensures metric == Metric.Revenue ==> r == SideTotal(cashFlow, Sell, market)
      ensures metric == Metric.Costs ==> r == SideTotal(cashFlow, Buy, market)
      ensures metric == Metric.MwSold ==> r == SideTotal(mw, Sell, market)
      ensures metric == Metric.MwBought ==> r == SideTotal(mw, Buy, market)
      ensures metric == Metric.GrossProfit ==> r == SideTotal(cashFlow, Sell, market) - SideTotal(cashFlow, Buy, market)
    {
      match metric
      case Revenue => Revenue(market)
      case Costs => Costs(market)
      case MwSold => MwSold(market)
      case MwBought => MwBought(market)
      case GrossProfit => GrossProfit(market)
    }
  }

  /** `ReportEntry::new`: both maps start empty. */
  function EmptyEntry(area: Area): (e: EntryState) {
    EntryState(area, map[], map[])
  }

  /** The per-area accumulator, updated in place while a report is built. */
  class ReportEntry {
    const area: Area
    var mw: map<Key, real>
    var cashFlow: map<Key, real>

    function State(): EntryState
      reads this
    {
      EntryState(area, mw, cashFlow)
    }

    constructor (area: Area)
      ensures State() == EmptyEntry(area)
    {
      this.area := area;
      mw := map[];
      cashFlow := map[];
    }

    /** `add_trade`: refuses a trade of another area; otherwise books the
        trade's posting, which for an unpriced trade is nothing. */
    method AddTrade(trade: Trade) returns (outcome: Outcome<Error>)
      modifies this
      ensures outcome == if trade.area == area then Pass else Fail(AreaMismatch)
      ensures State() == if outcome.Pass? then old(State()).Apply(TradeBooking(trade).posting) else old(State())
    {
      if trade.area != area {
        return Fail(AreaMismatch);
      }
      if trade.price.None? {
        return Pass;
      }
      var price := trade.price.value;
      var side := trade.tradeSide;
      var market := MarketOf(trade.tradeType);
      var length := ContractLength(trade.deliveryStart, trade.deliveryEnd);
      var volume := Mul(Abs(trade.quantityMwh), length);
      mw := Credit(mw, (side, market), volume);
      cashFlow := Credit(cashFlow, (side, market), Mul(volume, price));
      return Pass;
    }

    /** `add_trade_for_report`: as `AddTrade`, with the side taken from the
        sign of the quantity. */
    method AddTradeForReport(trade: TradeForReport) returns (outcome: Outcome<Error>)
      modifies this
      ensures outcome == if trade.area == area then Pass else Fail(AreaMismatch)
      ensures State() == if outcome.Pass? then old(State()).Apply(TradeForReportBooking(trade).posting) else old(State())
    {
      if trade.area != area {
        return Fail(AreaMismatch);
      }
      if trade.price.None? {
        return Pass;
      }
      var price := trade.price.value;
      var side := if trade.quantityMwh < 0.0 then Sell else Buy;
      var market := MarketOf(trade.tradeType);
      var length := ContractLength(trade.deliveryStart, trade.deliveryEnd);
      var volume := Mul(Abs(trade.quantityMwh), length);
      mw := Credit(mw, (side, market), volume);
      cashFlow := Credit(cashFlow, (side, market), Mul(volume, price));
      return Pass;
    }
  }

  /** One step of the fold: route the booking to its area's entry, creating
      an empty entry first if the area is new, and apply its posting there. */
  function Step(m: map<Area, EntryState>, b: Booking): (r: map<Area, EntryState>)
    ensures r.Keys == m.Keys + {b.area}
    ensures forall a :: a in m && a != b.area ==> r[a] == m[a]
    ensures r[b.area] == (if b.area in m then m[b.area] else EmptyEntry(b.area)).Apply(b.posting)
  {
    var e := if b.area in m then m[b.area] else EmptyEntry(b.area);
    m[b.area := e.Apply(b.posting)]
  }

  /** The areas map a report ends up with after folding `ts` in order, each
      trade seen through `book`. Every entry is keyed by its own area. */
  function Fold<T>(ts: seq<T>, book: T -> Booking): (m: map<Area, EntryState>)
    ensures forall a :: a in m ==> m[a].area == a
    decreases |ts|
  {
    if ts == [] then map[]
    else Step(Fold(ts[..|ts| - 1], book), book(ts[|ts| - 1]))
  }

  /** The first error of a stream, or all of its items when there is none. */
  function Collect<T, E>(items: seq<Result<T, E>>): (r: Result<seq<T>, E>)
    ensures r.Ok? ==> |r.value| == |items| && forall i :: 0 <= i < |items| ==> items[i] == Ok(r.value[i])
    ensures r.Err? ==> exists i :: 0 <= i < |items| && items[i] == Err(r.error)
                                   && forall j :: 0 <= j < i ==> items[j].Ok?
    decreases |items|
  {
    if items == [] then Ok([])
    else match Collect(items[..|items| - 1])
      case Err(e) => Err(e)
      case Ok(ts) =>
        match items[|items| - 1]
        case Err(e) => Err(e)
        case Ok(t) => Ok(ts + [t])
  }

  /** `Report`: the window it claims to cover and one entry per area. */
  datatype Report = Report(deliveryFrom: int, deliveryTo: int, areas: map<Area, EntryState>) {

    /** Whether a query can be answered without panicking: the selected
        entries with a specific market must hold that market's bucket. */
    predicate Answers(market: MarketSelection, selection: AreaSelection, metric: Metric) {
      match selection
      case Specific(a) => a !in areas || areas[a].Answers(metric, market)
      case All => forall a :: a in areas ==> areas[a].Answers(metric, market)
    }

    /** `aggregate_metric`: the metric of the selected area, zero when the
        report has no entry for it, or the sum over all entries. */
    function AggregateMetric(market: MarketSelection, selection: AreaSelection, metric: Metric): (r: real)
      requires Answers(market, selection, metric)
      ensures selection.Specific? && selection.area !in areas ==> r == 0.0
    {
      match selection
      case Specific(a) => if a in areas then areas[a].Measure(metric, market) else 0.0
      case All => AreaSum(areas, AllAreas(), market, metric)
    }

    /** Money is rounded to 2 decimal places, once, after summing. */
    function Revenue(market: MarketSelection, selection: AreaSelection): (r: real)
      requires Answers(market, selection, Metric.Revenue)
      ensures IsRounded(r, 2)
      ensures -0.005 <= r - AggregateMetric(market, selection, Metric.Revenue) <= 0.005
    {
      assert Pow10(2) == 100;
      RoundDp(AggregateMetric(market, selection, Metric.Revenue), 2)
    }

    function Costs(market: MarketSelection, selection: AreaSelection): (r: real)
      requires Answers(market, selection, Metric.Costs)
      ensures IsRounded(r, 2)
      ensures -0.005 <= r - AggregateMetric(market, selection, Metric.Costs) <= 0.005
    {
      assert Pow10(2) == 100;
      RoundDp(AggregateMetric(market, selection, Metric.Costs), 2)
    }

    /** Volumes are rounded to 1 decimal place, once, after summing. */
    function MwSold(market: MarketSelection, selection: AreaSelection): (r: real)
      requires Answers(market, selection, Metric.MwSold)
      ensures IsRounded(r, 1)
      ensures -0.05 <= r - AggregateMetric(market, selection, Metric.MwSold) <= 0.05
    {
      assert Pow10(1) == 10;
      RoundDp(AggregateMetric(market, selection, Metric.MwSold), 1)
    }

    function MwBought(market: MarketSelection, selection: AreaSelection): (r: real)
      requires Answers(market, selection, Metric.MwBought)
      ensures IsRounded(r, 1)
      ensures -0.05 <= r - AggregateMetric(market, selection, Metric.MwBought) <= 0.05
    {
      assert Pow10(1) == 10;
      RoundDp(AggregateMetric(market, selection, Metric.MwBought), 1)
    }

    function GrossProfit(market: MarketSelection, selection: AreaSelection): (r: real)
      requires Answers(market, selection, Metric.GrossProfit)
      ensures IsRounded(r, 2)
      ensures -0.005 <= r - AggregateMetric(market, selection, Metric.GrossProfit) <= 0.005
    {
      assert Pow10(2) == 100;
      RoundDp(AggregateMetric(market, selection, Metric.GrossProfit), 2)
    }
  }

  /** The sum of a metric over the entries of the areas in `order` that the
      map holds. */
  function AreaSum(areas: map<Area, EntryState>, order: seq<Area>, market: MarketSelection, metric: Metric): (r: real)
    requires forall a :: a in areas ==> areas[a].Answers(metric, market)
    ensures (forall i :: 0 <= i < |order| ==> order[i] !in areas) ==> r == 0.0
  {
    if order == [] then 0.0
    else
      (if order[0] in areas then areas[order[0]].Measure(metric, market) else 0.0)
      + AreaSum(areas, order[1..], market, metric)
  }

  // Building a report. The three constructors share the window check and
  // differ in how trades arrive and which accumulation entry point they use.

  /** Entries keyed by their own area. Since `area` is a constant, two
      entries under different keys are different objects. */
  ghost predicate Routed(entries: map<Area, ReportEntry>) {
    forall a :: a in entries ==> entries[a].area == a
  }

  function States(entries: map<Area, ReportEntry>): (m: map<Area, EntryState>)
    reads entries.Values
  {
    map a | a in entries :: entries[a].State()
  }

  /** `areas.entry(area).or_insert(ReportEntry::new(area)).add_trade(trade)?`.
      The `?` cannot fire: the entry is the one keyed by the trade's area. */
  method Route(entries: map<Area, ReportEntry>, trade: Trade) returns (next: map<Area, ReportEntry>)
    requires Routed(entries)
    modifies entries.Values
    ensures Routed(next)
    ensures forall a :: a in next ==> (a in entries && next[a] == entries[a]) || fresh(next[a])
    ensures States(next) == Step(old(States(entries)), TradeBooking(trade))
  {
    var area := trade.area;
    var entry: ReportEntry;
    if area in entries {
      entry := entries[area];
      next := entries;
    } else {
      entry := new ReportEntry(area);
      next := entries[area := entry];
    }
    ghost var before := old(States(entries));
    ghost var want := Step(before, TradeBooking(trade));
    var outcome := entry.AddTrade(trade);
    assert outcome.Pass?;
    assert States(next).Keys == want.Keys;
    forall a | a in next ensures States(next)[a] == want[a] {
      if a != area {
        assert next[a].area != entry.area;
      }
    }
  }

  /** As `Route`, through `add_trade_for_report`. */
  method RouteForReport(entries: map<Area, ReportEntry>, trade: TradeForReport) returns (next: map<Area, ReportEntry>)
    requires Routed(entries)
    modifies entries.Values
    ensures Routed(next)
    ensures forall a :: a in next ==> (a in entries && next[a] == entries[a]) || fresh(next[a])
    ensures States(next) == Step(old(States(entries)), TradeForReportBooking(trade))
  {
    var area := trade.area;
    var entry: ReportEntry;
    if area in entries {
      entry := entries[area];
      next := entries;
    } else {
      entry := new ReportEntry(area);
      next := entries[area := entry];
    }
    ghost var before := old(States(entries));
    ghost var want := Step(before, TradeForReportBooking(trade));
    var outcome := entry.AddTradeForReport(trade);
    assert outcome.Pass?;
    assert States(next).Keys == want.Keys;
    forall a | a in next ensures States(next)[a] == want[a] {
      if a != area {
        assert next[a].area != entry.area;
      }
    }
  }

  /** `Report::new`: fails exactly on a window that ends before it starts
      (equal bounds are accepted); otherwise the report holds the fold of
      the trades in their order. */
  method New(deliveryFrom: int, deliveryTo: int, trades: seq<Trade>) returns (r: Result<Report, Error>)
    ensures r == if deliveryTo < deliveryFrom then Err(InvalidWindow)
                 else Ok(Report(deliveryFrom, deliveryTo, Fold(trades, TradeBooking)))
  {
    if deliveryTo < deliveryFrom {
      return Err(InvalidWindow);
    }
    var entries: map<Area, ReportEntry> := map[];
    for i := 0 to |trades|
      invariant Routed(entries)
      invariant forall a :: a in entries ==> fresh(entries[a])
      invariant States(entries) == Fold(trades[..i], TradeBooking)
    {
      entries := Route(entries, trades[i]);
      assert trades[..i + 1][..i] == trades[..i];
    }
    assert trades[..|trades|] == trades;
    return Ok(Report(deliveryFrom, deliveryTo, States(entries)));
  }

  /** `Report::new_from_trade_for_report`. */
  method NewFromTradeForReport(deliveryFrom: int, deliveryTo: int, trades: seq<TradeForReport>)
    returns (r: Result<Report, Error>)
    ensures r == if deliveryTo < deliveryFrom then Err(InvalidWindow)
                 else Ok(Report(deliveryFrom, deliveryTo, Fold(trades, TradeForReportBooking)))
  {
    if deliveryTo < deliveryFrom {
      return Err(InvalidWindow);
    }
    var entries: map<Area, ReportEntry> := map[];
    for i := 0 to |trades|
      invariant Routed(entries)
      invariant forall a :: a in entries ==> fresh(entries[a])
      invariant States(entries) == Fold(trades[..i], TradeForReportBooking)
    {
      entries := RouteForReport(entries, trades[i]);
      assert trades[..i + 1][..i] == trades[..i];
    }
    assert trades[..|trades|] == trades;
    return Ok(Report(deliveryFrom, deliveryTo, States(entries)));
  }

  /** `Report::new_from_stream`: the stream is the finite sequence of the
      items it yields. The first error aborts the build; otherwise the report
      holds the fold of every trade in the order they arrived. */
  method NewFromStream(deliveryFrom: int, deliveryTo: int, items: seq<Result<Trade, string>>)
    returns (r: Result<Report, Error>)
    ensures r == if deliveryTo < deliveryFrom then Err(InvalidWindow)
                 else match Collect(items)
                   case Err(e) => Err(Source(e))
                   case Ok(trades) => Ok(Report(deliveryFrom, deliveryTo, Fold(trades, TradeBooking)))
  {
    if deliveryTo < deliveryFrom {
      return Err(InvalidWindow);
    }
    var entries: map<Area, ReportEntry> := map[];
    var i := 0;
    ghost var trades: seq<Trade> := [];
    while i < |items|
      invariant 0 <= i <= |items|
      invariant Collect(items[..i]) == Ok(trades)
      invariant Routed(entries)
      invariant forall a :: a in entries ==> fresh(entries[a])
      invariant States(entries) == Fold(trades, TradeBooking)
    {
      match items[i] {
        case Err(e) =>
          CollectStopsAt(items, i, trades);
          return Err(Source(e));
        case Ok(trade) =>
          entries := Route(entries, trade);
          CollectExtends(items, i, trades);
          trades := trades + [trade];
          i := i + 1;
      }
    }
    assert items[..|items|] == items;
    return Ok(Report(deliveryFrom, deliveryTo, States(entries)));
  }

  /** A successful prefix followed by one more successful item. */
  lemma CollectExtends<T, E>(items: seq<Result<T, E>>, i: nat, ts: seq<T>)
    requires i < |items| && items[i].Ok?
    requires Collect(items[..i]) == Ok(ts)
    ensures Collect(items[..i + 1]) == Ok(ts + [items[i].value])
  {
    assert items[..i + 1][..i] == items[..i];
  }

  /** A successful prefix followed by an error: the whole stream fails with it. */
  lemma CollectStopsAt<T, E>(items: seq<Result<T, E>>, i: nat, ts: seq<T>)
    requires i < |items| && items[i].Err?
    requires Collect(items[..i]) == Ok(ts)
    ensures Collect(items) == Err(items[i].error)
  {
    assert items[..i + 1][..i] == items[..i];
    CollectKeepsError(items[..i + 1], items[i + 1..]);
    assert items[..i + 1] + items[i + 1..] == items;
  }

  /** Once a prefix of the stream has failed, whatever follows is ignored. */
  lemma {:induction false} CollectKeepsError<T, E>(xs: seq<Result<T, E>>, ys: seq<Result<T, E>>)
    requires Collect(xs).Err?
    ensures Collect(xs + ys) == Collect(xs)
    decreases |ys|
  {
    if ys != [] {
      var zs := xs + ys[..|ys| - 1];
      CollectKeepsError(xs, ys[..|ys| - 1]);
      assert (xs + ys)[..|xs + ys| - 1] == zs;
    } else {
      assert xs + ys == xs;
    }
  }
}
