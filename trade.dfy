/** The domain model of src/trade.rs: the closed enumerations of delivery
    areas, counterparties, trade sides, trade types and markets, the
    classification of trade types into markets, the string conversions
    that panic on an unknown name, and the two trade record shapes. */
module Trades {
  import opened Wrappers

  /** Delivery area (price zone). */
  datatype Area = Amp | DK1 | DK2 | FR | GB | NL | NO2 | SE1 | SE3

  /** Every area once, in declaration order; the order in which the model
      sums over a report's areas. */
  function AllAreas(): (areas: seq<Area>)
    ensures forall a: Area :: a in areas
    ensures forall i, j :: 0 <= i < j < |areas| ==> areas[i] != areas[j]
  {
    var areas := [Amp, DK1, DK2, FR, GB, NL, NO2, SE1, SE3];
    EveryAreaListed(areas);
    areas
  }

  lemma EveryAreaListed(areas: seq<Area>)
    requires areas == [Amp, DK1, DK2, FR, GB, NL, NO2, SE1, SE3]
    ensures forall a: Area :: a in areas
  {
    forall a: Area ensures a in areas {
      match a
      case Amp => assert areas[0] == a;
      case DK1 => assert areas[1] == a;
      case DK2 => assert areas[2] == a;
      case FR => assert areas[3] == a;
      case GB => assert areas[4] == a;
      case NL => assert areas[5] == a;
      case NO2 => assert areas[6] == a;
      case SE1 => assert areas[7] == a;
      case SE3 => assert areas[8] == a;
    }
  }

  datatype AreaSelection = All | Specific(area: Area)

  /** Market operator on the other side of a trade; never used in aggregation. */
  datatype CounterPart = Nordpool | Epex | Esett | Elexon | Rte | Semo | Tennet | Amprion

  datatype TradeSide = Buy | Sell

  /** Fine-grained contract type. */
  datatype TradeType =
    | Intraday
    | Imbalance
    | AuctionGbDahH
    | AuctionGbDahHh
    | AuctionGbId1Hh
    | AuctionGbId2Hh
    | AuctionEurDahH
    | AuctionEurId1H
    | AuctionEurId2H
    | AuctionEurId3H

  datatype Market = Auction | Intraday | Imbalance

  datatype MarketSelection = All | Specific(market: Market)

  /** `impl From<TradeType> for Market`: an exhaustive match, so every trade
      type lands in exactly one market; only the intraday and imbalance types
      are not auctions. */
  function MarketOf(t: TradeType): (m: Market)
    ensures m == Market.Intraday <==> t == TradeType.Intraday
    ensures m == Market.Imbalance <==> t == TradeType.Imbalance
  {
    match t
    case Intraday => Market.Intraday
    case Imbalance => Market.Imbalance
    case AuctionGbDahH | AuctionGbDahHh | AuctionGbId1Hh | AuctionGbId2Hh
      | AuctionEurDahH | AuctionEurId1H | AuctionEurId2H | AuctionEurId3H => Market.Auction
  }

  /** `Market::iter()`: the three markets in declaration order. */
  function Markets(): (ms: seq<Market>)
    ensures |ms| == 3
    ensures forall m: Market :: m in ms
    ensures forall i, j :: 0 <= i < j < |ms| ==> ms[i] != ms[j]
  {
    var ms := [Market.Auction, Market.Intraday, Market.Imbalance];
    EveryMarketListed(ms);
    ms
  }

  lemma EveryMarketListed(ms: seq<Market>)
    requires ms == [Market.Auction, Market.Intraday, Market.Imbalance]
    ensures forall m: Market :: m in ms
  {
    forall m: Market ensures m in ms {
      match m
      case Auction => assert ms[0] == m;
      case Intraday => assert ms[1] == m;
      case Imbalance => assert ms[2] == m;
    }
  }

  // String conversions. Each `From<String>` impl unwraps strum's `from_str`
  // and panics on an unknown name; the panic is modelled as `None`.

  /** strum's `serialize_all = "UPPERCASE"` name of an area. */
  function AreaName(a: Area): string {
    match a
    case Amp => "AMP"
    case DK1 => "DK1"
    case DK2 => "DK2"
    case FR => "FR"
    case GB => "GB"
    case NL => "NL"
    case NO2 => "NO2"
    case SE1 => "SE1"
    case SE3 => "SE3"
  }

  /** `impl From<String> for Area`. */
  function AreaFromName(s: string): (r: Option<Area>)
    ensures forall a: Area :: r == Some(a) <==> AreaName(a) == s
  {
    if s == "AMP" then Some(Amp)
    else if s == "DK1" then Some(DK1)
    else if s == "DK2" then Some(DK2)
    else if s == "FR" then Some(FR)
    else if s == "GB" then Some(GB)
    else if s == "NL" then Some(NL)
    else if s == "NO2" then Some(NO2)
    else if s == "SE1" then Some(SE1)
    else if s == "SE3" then Some(SE3)
    else None
  }

  /** strum's `serialize_all = "lowercase"` name of a counterparty. */
  function CounterPartName(c: CounterPart): string {
    match c
    case Nordpool => "nordpool"
    case Epex => "epex"
    case Esett => "esett"
    case Elexon => "elexon"
    case Rte => "rte"
    case Semo => "semo"
    case Tennet => "tennet"
    case Amprion => "amprion"
  }

  /** `impl From<String> for CounterPart`. */
  function CounterPartFromName(s: string): (r: Option<CounterPart>)
    ensures forall c: CounterPart :: r == Some(c) <==> CounterPartName(c) == s
  {
    if s == "nordpool" then Some(Nordpool)
    else if s == "epex" then Some(Epex)
    else if s == "esett" then Some(Esett)
    else if s == "elexon" then Some(Elexon)
    else if s == "rte" then Some(Rte)
    else if s == "semo" then Some(Semo)
    else if s == "tennet" then Some(Tennet)
    else if s == "amprion" then Some(Amprion)
    else None
  }

  /** strum's `serialize_all = "lowercase"` name of a trade side. */
  function TradeSideName(side: TradeSide): string {
    match side
    case Buy => "buy"
    case Sell => "sell"
  }

  /** `impl From<String> for TradeSide`. */
  function TradeSideFromName(s: string): (r: Option<TradeSide>)
    ensures forall side: TradeSide :: r == Some(side) <==> TradeSideName(side) == s
  {
    if s == "buy" then Some(Buy)
    else if s == "sell" then Some(Sell)
    else None
  }

  /** strum's `serialize_all = "snake_case"` name of a trade type. */
  function TradeTypeName(t: TradeType): string {
    match t
    case Intraday => "intraday"
    case Imbalance => "imbalance"
    case AuctionGbDahH => "auction_gb_dah_h"
    case AuctionGbDahHh => "auction_gb_dah_hh"
    case AuctionGbId1Hh => "auction_gb_id1_hh"
    case AuctionGbId2Hh => "auction_gb_id2_hh"
    case AuctionEurDahH => "auction_eur_dah_h"
    case AuctionEurId1H => "auction_eur_id1_h"
    case AuctionEurId2H => "auction_eur_id2_h"
    case AuctionEurId3H => "auction_eur_id3_h"
  }

  /** `impl From<String> for TradeType`. */
  function TradeTypeFromName(s: string): (r: Option<TradeType>)
    ensures forall t: TradeType :: r == Some(t) <==> TradeTypeName(t) == s
  {
    if s == "intraday" then Some(TradeType.Intraday)
    else if s == "imbalance" then Some(TradeType.Imbalance)
    else if s == "auction_gb_dah_h" then Some(AuctionGbDahH)
    else if s == "auction_gb_dah_hh" then Some(AuctionGbDahHh)
    else if s == "auction_gb_id1_hh" then Some(AuctionGbId1Hh)
    else if s == "auction_gb_id2_hh" then Some(AuctionGbId2Hh)
    else if s == "auction_eur_dah_h" then Some(AuctionEurDahH)
    else if s == "auction_eur_id1_h" then Some(AuctionEurId1H)
    else if s == "auction_eur_id2_h" then Some(AuctionEurId2H)
    else if s == "auction_eur_id3_h" then Some(AuctionEurId3H)
    else None
  }

  /** A trade row as read from any of the three trade tables. Instants are
      whole seconds since an epoch; `price` is absent for an unsettled trade. */
  datatype Trade = Trade(
    id: int,
    area: Area,
    counterPart: CounterPart,
    deliveryEnd: int,
    deliveryStart: int,
    price: Option<real>,
    quantityMwh: real,
    tradeSide: TradeSide,
    tradeType: TradeType)

  /** The slimmer row shape with no side column: the side is carried by the
      sign of `quantityMwh`. */
  datatype TradeForReport = TradeForReport(
    area: Area,
    price: Option<real>,
    quantityMwh: real,
    deliveryStart: int,
    deliveryEnd: int,
    tradeType: TradeType)
}
