/** What the snapshot of the account says about open positions: what leaving them now would bring. */
module PaperValuation {
  import opened Common
  import opened Fees
  import opened PaperAccount
  import opened PaperTradingStores
  import opened PaperBrokers
  import PaperReconciliation
  import OB = OrderBooks

  /** The contract is known with its code and not past its expiry. */
  predicate Listed(m: Market, today: int) {
    m.contract.Some? && m.contract.value.insCode != "" && today <= m.contract.value.expiry
  }

  /** How much of a position the bids could take; None without a book. */
  function ExitDepth(m: Market): Option<int> {
    if m.book.None? then None else Some(OB.RealDepth(m.book.value.bids))
  }

  /** The whole position can be sold into the bids. */
  predicate CanLeave(quantity: int, m: Market, today: int) {
    Listed(m, today) && ExitDepth(m).Some? && ExitDepth(m).value >= quantity
  }

  /** Every status of a valued position, each by its own condition. */
  lemma StatusByMarket(t: Tables, markets: string -> Market, today: int, s: string, v: Valuation, q: int)
    requires Sane(t) && s in t.positions && v == Snapshot(t, markets, today).positions[s]
    requires q == t.positions[s].quantity
    ensures v.status.Priced? <==> CanLeave(q, markets(s), today)
    ensures v.status.PartialDepth?
            <==> Listed(markets(s), today) && ExitDepth(markets(s)).Some? && 0 < ExitDepth(markets(s)).value < q
    ensures v.status.NoDepth? <==> Listed(markets(s), today) && ExitDepth(markets(s)) == Some(0)
    ensures v.status.ExpiredUnsettled?
            <==> var c := markets(s).contract; c.Some? && c.value.insCode != "" && c.value.expiry < today
    ensures v.status.Unavailable?
            <==> || markets(s).contract.None? || markets(s).contract.value.insCode == ""
                 || (markets(s).book.None? && today <= markets(s).contract.value.expiry)
    ensures v.markPrice.Some? <==> v.status.Priced?
  {
    if markets(s).book.Some? {
      QuoteEats(markets(s).book.value.bids, q);
    }
  }

  /** The valuation shows the position itself, at the quoted contract size. */
  lemma ValuationShowsPosition(t: Tables, markets: string -> Market, today: int, s: string, v: Valuation)
    requires Sane(t) && s in t.positions && v == Snapshot(t, markets, today).positions[s]
    ensures var p := t.positions[s];
            && v.quantity == p.quantity && v.averagePrice == p.averagePrice && v.entryFeesOpen == p.entryFees
            && (v.entryFeesKnown <==> p.entryFeesKnown)
            && (markets(s).contract.Some? ==> v.contractSize == markets(s).contract.value.contractSize)
  {}

  lemma BestMoneyIsUnique(side: OB.Side, levels: seq<OB.BookLevel>, filled: int, x: real, y: real)
    requires OB.BestMoney(side, levels, filled, x) && OB.BestMoney(side, levels, filled, y)
    ensures x == y
  {
    var a :| OB.Feasible(levels, a) && OB.Total(a) == filled && OB.Outlay(levels, a) == x;
    var b :| OB.Feasible(levels, b) && OB.Total(b) == filled && OB.Outlay(levels, b) == y;
    assert OB.Toll(side, x) <= OB.Toll(side, y) && OB.Toll(side, y) <= OB.Toll(side, x);
  }

  /** The mark is the average of the most money any way of selling the whole position to the bids brings. */
  lemma MarkIsBestExit(t: Tables, markets: string -> Market, today: int, s: string, v: Valuation)
    requires Sane(t) && s in t.positions && v == Snapshot(t, markets, today).positions[s] && v.status.Priced?
    requires markets(s).book.Some? ==> markets(s).book.value.WellFormed()
    ensures markets(s).book.Some? && v.markPrice.Some?
    ensures OB.BestMoney(OB.Sell, markets(s).book.value.bids, v.quantity, Worth(v.quantity, v.markPrice.value))
  {
    var q := t.positions[s].quantity;
    StatusByMarket(t, markets, today, s, v, q);
    QuoteEats(markets(s).book.value.bids, q);
    OB.FillIsBest(OB.Sell, markets(s).book.value.bids, q);
  }

  /** `exits` is, position by position, the most money per share that selling all of it to the bids brings. */
  ghost predicate BestExits(t: Tables, markets: string -> Market, exits: map<string, real>) {
    exits.Keys == t.positions.Keys && forall s :: s in t.positions && markets(s).book.Some? ==>
      && markets(s).book.value.WellFormed()
      && (OB.RealDepth(markets(s).book.value.bids) >= t.positions[s].quantity ==>
            OB.BestMoney(OB.Sell, markets(s).book.value.bids, t.positions[s].quantity, exits[s]))
  }

  ghost function Proceeds(exits: map<string, real>, markets: string -> Market): map<string, real> {
    map s | s in exits :: Worth(PaperReconciliation.QuotedSize(markets(s)), exits[s])
  }

  lemma ValueIsProceeds(
    t: Tables, markets: string -> Market, today: int, s: string, v: Valuation, exits: map<string, real>)
    requires Sane(t) && s in t.positions && v == Snapshot(t, markets, today).positions[s] && v.status.Priced?
    requires BestExits(t, markets, exits)
    ensures v.MarketValue() == Some(Worth(PaperReconciliation.QuotedSize(markets(s)), exits[s]))
  {
    StatusByMarket(t, markets, today, s, v, t.positions[s].quantity);
    MarkIsBestExit(t, markets, today, s, v);
    BestMoneyIsUnique(
      OB.Sell, markets(s).book.value.bids, v.quantity, Worth(v.quantity, v.markPrice.value), exits[s]);
  }

  lemma EquityOfValues(snap: AccountSnapshot, values: map<string, real>)
    requires values.Keys == snap.positions.Keys
    requires forall s :: s in values ==> snap.positions[s].MarketValue() == Some(values[s])
    ensures snap.Equity() == Some(snap.cash + SumMap(values))
  {
    assert snap.Values() == values;
  }

  lemma CompleteIffAllLeave(t: Tables, markets: string -> Market, today: int, snap: AccountSnapshot)
    requires Sane(t) && snap == Snapshot(t, markets, today)
    ensures snap.positions.Keys == t.positions.Keys
    ensures snap.ValuationComplete()
            <==> forall s :: s in t.positions ==> CanLeave(t.positions[s].quantity, markets(s), today)
  {
    forall s | s in t.positions
      ensures snap.positions[s].status.Priced? <==> CanLeave(t.positions[s].quantity, markets(s), today)
    {
      StatusByMarket(t, markets, today, s, snap.positions[s], t.positions[s].quantity);
    }
  }

  lemma ValuesAreProceeds(
    t: Tables, markets: string -> Market, today: int, snap: AccountSnapshot, exits: map<string, real>)
    requires Sane(t) && BestExits(t, markets, exits) && snap == Snapshot(t, markets, today) && snap.ValuationComplete()
    ensures forall s :: s in Proceeds(exits, markets) ==>
      s in snap.positions && snap.positions[s].MarketValue() == Some(Proceeds(exits, markets)[s])
  {
    forall s | s in t.positions
      ensures snap.positions[s].MarketValue() == Some(Worth(PaperReconciliation.QuotedSize(markets(s)), exits[s]))
    {
      ValueIsProceeds(t, markets, today, s, snap.positions[s], exits);
    }
  }

  /** Equity is known exactly when every position could leave in full, and is cash and what that would bring. */
  lemma EquityIsCashPlusExits(
    t: Tables, markets: string -> Market, today: int, snap: AccountSnapshot, exits: map<string, real>)
    requires Sane(t) && BestExits(t, markets, exits) && snap == Snapshot(t, markets, today)
    ensures snap.Equity().Some?
            <==> forall s :: s in t.positions ==> CanLeave(t.positions[s].quantity, markets(s), today)
    ensures snap.Equity().Some? ==>
              snap.Equity().value == t.account.value.cash + SumMap(Proceeds(exits, markets))
  {
    CompleteIffAllLeave(t, markets, today, snap);
    if snap.ValuationComplete() {
      ValuesAreProceeds(t, markets, today, snap, exits);
      EquityOfValues(snap, Proceeds(exits, markets));
    }
  }
}
