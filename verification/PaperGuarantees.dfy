/** The documented identity: in every reachable state the account reconciles exactly. */
module PaperReconciliation {
  import opened Common
  import opened Fees
  import opened PaperAccount
  import opened PaperTradingStores
  import opened PaperBrokers
  import opened PaperLedger
  import OB = OrderBooks

  function QuotedSize(m: Market): int { if m.contract.Some? then m.contract.value.contractSize else 1 }

  /** What the open positions cost if every contract had always had today's size. */
  ghost function QuotedCosts(positions: map<string, Position>, markets: string -> Market): map<string, real> {
    map s | s in positions :: Money(positions[s].averagePrice, positions[s].quantity, QuotedSize(markets(s)))
  }

  /** `snap` shows the tables `t`, its open positions valued at the gross `costs`. */
  ghost predicate Mirrors(snap: AccountSnapshot, t: Tables, costs: map<string, real>) {
    && t.account.Some? && snap.cash == t.account.value.cash && snap.initialBalance == t.account.value.initialBalance
    && Marked(snap) && snap.FeesOpen() == FeeMap(t.positions) && snap.GrossCosts() == costs
    && snap.realized == Summary(t.trades) && (snap.CostsKnown() <==> CostsKnown(t))
  }

  lemma SnapshotMirrors(t: Tables, markets: string -> Market, today: int)
    requires Sane(t)
    ensures Mirrors(Snapshot(t, markets, today), t, QuotedCosts(t.positions, markets))
  {
    var snap := Snapshot(t, markets, today);
    forall s | s in t.positions ensures snap.positions[s].entryFeesKnown == t.positions[s].entryFeesKnown {}
  }

  /**
   * The change of equity differs from realized net plus unrealized net by exactly the open cost
   * at the quoted contract sizes, minus the money really spent on what is open, plus what sales at
   * revised sizes have made up.
   */
  lemma ReconciliationDifference(t: Tables, a: Audit, snap: AccountSnapshot, costs: map<string, real>)
    requires Ledger(t, a) && Mirrors(snap, t, costs)
    ensures snap.Reconcile().Applicable? <==> snap.CostsKnown() && snap.ValuationComplete()
    ensures snap.Reconcile().Applicable? ==>
              snap.Reconcile().difference == SumMap(costs) - SumMap(a.spent) + a.slip
  {
    ReconcileIgnoresPrices(snap);
  }

  ghost predicate Slips(snap: AccountSnapshot, quoted: real, spent: real, slip: real) {
    && (snap.Reconcile().Applicable? <==> snap.CostsKnown() && snap.ValuationComplete())
    && (snap.Reconcile().Applicable? ==> snap.Reconcile().difference == quoted - spent + slip)
  }

  lemma SnapshotSlips(t: Tables, a: Audit, markets: string -> Market, today: int)
    requires Ledger(t, a)
    ensures Slips(Snapshot(t, markets, today), SumMap(QuotedCosts(t.positions, markets)), SumMap(a.spent), a.slip)
  {
    SnapshotMirrors(t, markets, today);
    ReconciliationDifference(t, a, Snapshot(t, markets, today), QuotedCosts(t.positions, markets));
  }

  lemma FromNewAccount(balance: real, events: seq<Event>)
    ensures Ledger(Run(NewAccount(balance), events), AuditRun(NewAccount(balance), events, NO_AUDIT))
  {
    NewAccountLedger(balance);
    RunKeepsLedger(NewAccount(balance), events, NO_AUDIT);
  }

  /**
   * In every run, whatever contract sizes its events quote: the difference is 0 exactly when the
   * open cost at the quoted sizes, together with what the sales made up, is the money spent.
   */
  lemma SizeRevisionBreaksIt(balance: real, events: seq<Event>, markets: string -> Market, today: int)
    ensures var t, a := Run(NewAccount(balance), events), AuditRun(NewAccount(balance), events, NO_AUDIT);
            var snap, quoted := Snapshot(t, markets, today), SumMap(QuotedCosts(t.positions, markets));
            && Slips(snap, quoted, SumMap(a.spent), a.slip)
            && (snap.Reconcile().Applicable? ==>
                  (snap.Reconcile().difference == 0.0 <==> quoted + a.slip == SumMap(a.spent)))
  {
    FromNewAccount(balance, events);
    SnapshotSlips(
      Run(NewAccount(balance), events), AuditRun(NewAccount(balance), events, NO_AUDIT), markets, today);
  }

  // ---- Contract sizes that never change --------------------------------------------------------

  ghost predicate MarketsAgree(t: Tables, markets: string -> Market, sizeOf: string -> int) {
    forall s :: s in t.positions && markets(s).contract.Some? ==> markets(s).contract.value.contractSize == sizeOf(s)
  }

  lemma AgreeingCosts(t: Tables, sizeOf: string -> int, markets: string -> Market, today: int)
    requires Sane(t) && Snapshot(t, markets, today).ValuationComplete() && MarketsAgree(t, markets, sizeOf)
    ensures QuotedCosts(t.positions, markets) == CostMap(t.positions, sizeOf)
  {
    forall s | s in t.positions ensures QuotedSize(markets(s)) == sizeOf(s) {
      assert Snapshot(t, markets, today).positions[s].status.Priced?;
    }
  }

  lemma SlipsAlone(
    snap: AccountSnapshot, quoted: map<string, real>, spent: map<string, real>, slip: real)
    requires Slips(snap, SumMap(quoted), SumMap(spent), slip) && (snap.ValuationComplete() ==> quoted == spent)
    ensures Slips(snap, 0.0, 0.0, slip)
  {
    if snap.Reconcile().Applicable? {
      assert quoted == spent;
    }
  }

  /** With quotes at the sizes bought at, only the sales can have slipped. */
  lemma AgreeingDifference(t: Tables, a: Audit, sizeOf: string -> int, markets: string -> Market, today: int)
    requires Ledger(t, a) && SpentAt(t.positions, a.spent, sizeOf) && MarketsAgree(t, markets, sizeOf)
    ensures Slips(Snapshot(t, markets, today), 0.0, 0.0, a.slip)
  {
    SnapshotSlips(t, a, markets, today);
    if Snapshot(t, markets, today).ValuationComplete() {
      AgreeingCosts(t, sizeOf, markets, today);
    }
    SlipsAlone(Snapshot(t, markets, today), QuotedCosts(t.positions, markets), a.spent, a.slip);
  }

  lemma NoSlipIsOk(snap: AccountSnapshot)
    requires Slips(snap, 0.0, 0.0, 0.0)
    ensures ReconcilesExactly(snap)
  {
    if snap.Reconcile().Applicable? {
      ExactIsOk(snap);
    }
  }

  lemma RunAtSizes(balance: real, events: seq<Event>, sizeOf: string -> int)
    requires AllAgree(events, sizeOf)
    ensures var t, a := Run(NewAccount(balance), events), AuditRun(NewAccount(balance), events, NO_AUDIT);
            Ledger(t, a) && AtTheirSizes(t, a, sizeOf)
  {
    FromNewAccount(balance, events);
    NewAccountSizes(balance, sizeOf);
    RunKeepsSizes(NewAccount(balance), events, NO_AUDIT, sizeOf);
  }

  /**
   * In every state any sequence of orders, settlements, resets, reopenings and failures can reach
   * from a fresh account, the reconciliation is exact whenever it can be asked at all.
   */
  lemma EveryRunReconciles(
    balance: real, events: seq<Event>, sizeOf: string -> int, markets: string -> Market, today: int)
    requires AllAgree(events, sizeOf) && MarketsAgree(Run(NewAccount(balance), events), markets, sizeOf)
    ensures ReconcilesExactly(Snapshot(Run(NewAccount(balance), events), markets, today))
  {
    RunAtSizes(balance, events, sizeOf);
    AgreeingDifference(
      Run(NewAccount(balance), events), AuditRun(NewAccount(balance), events, NO_AUDIT), sizeOf, markets, today);
    NoSlipIsOk(Snapshot(Run(NewAccount(balance), events), markets, today));
  }

  // ---- One revision is enough ------------------------------------------------------------------

  /** The event closes `filled` contracts of `symbol` at the contract size `size`. */
  ghost predicate Closes(t: Tables, e: Event, symbol: string, filled: int, size: int)
    requires Sane(t)
  {
    match e
    case Order(fees, r, m) =>
      && Decide(t, fees, r, m).Fill? && r.side == Some(OB.Sell) && r.symbol == symbol
      && Decide(t, fees, r, m).filled == filled && Decide(t, fees, r, m).size == size
    case Settle(fees, s, price, m, today, _) =>
      && SettleCheck(t, s, price, m, today).None? && s == symbol
      && filled == t.positions[s].quantity && size == m.contract.value.contractSize
    case _ => false
  }

  lemma SaleSlips(
    t: Tables, a: Audit, symbol: string, filled: int, exit: real, fee: real, known: bool, now: int, size: int,
    sizeOf: string -> int)
    requires AtTheirSizes(t, a, sizeOf) && symbol in t.positions && 0 < filled <= t.positions[symbol].quantity
    ensures var p, b := t.positions[symbol], AuditAfterSale(a, symbol, t.positions[symbol], filled, fee, size);
            && SpentAt(Sold(t, symbol, filled, exit, fee, known, now, size).positions, b.spent, sizeOf)
            && b.slip == Money(p.averagePrice, filled, size) - Money(p.averagePrice, filled, sizeOf(symbol))
  {
    var p := t.positions[symbol];
    var share := AllocateEntryFee(p.entryFees, filled, p.quantity);
    var left := p.(quantity := p.quantity - filled, entryFees := p.entryFees - share);
    SaleBalances(
      t, symbol, filled, exit, fee, known, now, size, share, left,
      CloseRecord(
        symbol, filled, p.averagePrice, exit, If(p.entryFeesKnown, share), If(known, fee), size, p.openedAt, now));
    SaleSpends(t, symbol, filled, fee, a, sizeOf, size, left);
  }

  lemma ClosingSlips(t: Tables, a: Audit, e: Event, symbol: string, filled: int, size: int, sizeOf: string -> int)
    requires AtTheirSizes(t, a, sizeOf) && Closes(t, e, symbol, filled, size)
    ensures symbol in t.positions && 0 < filled <= t.positions[symbol].quantity
    ensures SpentAt(After(t, e).positions, AuditAfter(t, e, a).spent, sizeOf)
    ensures AuditAfter(t, e, a).slip
         == Money(t.positions[symbol].averagePrice, filled, size)
            - Money(t.positions[symbol].averagePrice, filled, sizeOf(symbol))
  {
    match e
    case Order(fees, r, m) =>
      var d := Decide(t, fees, r, m);
      DecideFacts(t, fees, r, m);
      SaleSlips(t, a, symbol, filled, d.average, d.fee, fees.RatesKnown(), r.now, size, sizeOf);
    case Settle(fees, s, price, m, today, now) =>
      var fee := fees.SellCost(Money(price.value, filled, size));
      SettleIsSale(t, fees, symbol, price.value, size, now);
      SaleSlips(t, a, symbol, filled, price.value, fee, fees.RatesKnown(), now, size, sizeOf);
    case _ =>
  }

  /** The difference of two amounts is the whole difference, and they agree exactly when `same`. */
  lemma ZeroIff(snap: AccountSnapshot, quoted: real, spent: real, slip: real, x: real, y: real, same: bool)
    requires Slips(snap, quoted, spent, slip) && (x == y <==> same)
    requires snap.ValuationComplete() ==> quoted - spent + slip == x - y
    ensures snap.Reconcile().Applicable? ==> (snap.Reconcile().difference == 0.0 <==> same)
  {}

  lemma RevisedCloseOf(
    t: Tables, a: Audit, e: Event, sizeOf: string -> int, symbol: string, filled: int, size: int,
    markets: string -> Market, today: int, price: real)
    requires Ledger(t, a) && AtTheirSizes(t, a, sizeOf) && Closes(t, e, symbol, filled, size)
    requires symbol in t.positions && price == t.positions[symbol].averagePrice > 0.0
    requires MarketsAgree(After(t, e), markets, sizeOf)
    ensures var snap := Snapshot(After(t, e), markets, today);
            snap.Reconcile().Applicable? ==> (snap.Reconcile().difference == 0.0 <==> size == sizeOf(symbol))
  {
    var x, y := Money(price, filled, size), Money(price, filled, sizeOf(symbol));
    ClosingSlips(t, a, e, symbol, filled, size, sizeOf);
    SameMoneySameSize(price, filled, size, sizeOf(symbol), x, y);
    EventKeepsLedger(t, e, a);
    AgreeingDifference(After(t, e), AuditAfter(t, e, a), sizeOf, markets, today);
    ZeroIff(
      Snapshot(After(t, e), markets, today), 0.0, 0.0, AuditAfter(t, e, a).slip, x, y, size == sizeOf(symbol));
  }

  /**
   * After a run at fixed sizes one position is closed, wholly or in part, at a size of its own:
   * the account reconciles exactly when that is the size it was bought at.
   */
  lemma RevisedCloseBreaksIt(
    balance: real, front: seq<Event>, e: Event, sizeOf: string -> int, symbol: string, filled: int, size: int,
    markets: string -> Market, today: int)
    requires AllAgree(front, sizeOf) && Closes(Run(NewAccount(balance), front), e, symbol, filled, size)
    requires symbol in Run(NewAccount(balance), front).positions
             && Run(NewAccount(balance), front).positions[symbol].averagePrice > 0.0
    requires MarketsAgree(After(Run(NewAccount(balance), front), e), markets, sizeOf)
    ensures var snap := Snapshot(After(Run(NewAccount(balance), front), e), markets, today);
            snap.Reconcile().Applicable? ==> (snap.Reconcile().difference == 0.0 <==> size == sizeOf(symbol))
  {
    var t, a := Run(NewAccount(balance), front), AuditRun(NewAccount(balance), front, NO_AUDIT);
    RunAtSizes(balance, front, sizeOf);
    RevisedCloseOf(t, a, e, sizeOf, symbol, filled, size, markets, today, t.positions[symbol].averagePrice);
  }

  /** All markets but the one of `symbol` quote the size bought at. */
  ghost predicate OthersAgree(t: Tables, markets: string -> Market, sizeOf: string -> int, symbol: string) {
    forall s :: s in t.positions && s != symbol && markets(s).contract.Some? ==>
      markets(s).contract.value.contractSize == sizeOf(s)
  }

  lemma QuotedBesides(
    t: Tables, sizeOf: string -> int, markets: string -> Market, today: int, symbol: string, quoted: real, spent: real)
    requires Sane(t) && Snapshot(t, markets, today).ValuationComplete() && OthersAgree(t, markets, sizeOf, symbol)
    requires symbol in t.positions && quoted == QuotedCosts(t.positions, markets)[symbol]
             && spent == CostMap(t.positions, sizeOf)[symbol]
    ensures SumMap(QuotedCosts(t.positions, markets)) - SumMap(CostMap(t.positions, sizeOf)) == quoted - spent
  {
    var costs := CostMap(t.positions, sizeOf);
    forall s | s in t.positions && s != symbol ensures QuotedSize(markets(s)) == sizeOf(s) {
      assert Snapshot(t, markets, today).positions[s].status.Priced?;
    }
    assert QuotedCosts(t.positions, markets) == costs[symbol := quoted];
    SumAfterUpsert(costs, symbol, quoted);
  }

  lemma RevisedQuoteOf(
    t: Tables, a: Audit, sizeOf: string -> int, markets: string -> Market, today: int, symbol: string, price: real)
    requires Ledger(t, a) && AtTheirSizes(t, a, sizeOf) && OthersAgree(t, markets, sizeOf, symbol)
    requires symbol in t.positions && price == t.positions[symbol].averagePrice > 0.0
    ensures var snap := Snapshot(t, markets, today);
            snap.Reconcile().Applicable? ==>
              (snap.Reconcile().difference == 0.0 <==> QuotedSize(markets(symbol)) == sizeOf(symbol))
  {
    var q, size := t.positions[symbol].quantity, QuotedSize(markets(symbol));
    var x, y := Money(price, q, size), Money(price, q, sizeOf(symbol));
    SnapshotSlips(t, a, markets, today);
    SameMoneySameSize(price, q, size, sizeOf(symbol), x, y);
    if Snapshot(t, markets, today).ValuationComplete() {
      QuotedBesides(t, sizeOf, markets, today, symbol, x, y);
    }
    ZeroIff(
      Snapshot(t, markets, today), SumMap(QuotedCosts(t.positions, markets)), SumMap(a.spent), a.slip, x, y,
      size == sizeOf(symbol));
  }

  /**
   * After a run at fixed sizes one open position is quoted at a size of its own: the account
   * reconciles exactly when that is the size it was bought at.
   */
  lemma RevisedQuoteBreaksIt(
    balance: real, events: seq<Event>, sizeOf: string -> int, markets: string -> Market, today: int, symbol: string,
    price: real)
    requires AllAgree(events, sizeOf) && OthersAgree(Run(NewAccount(balance), events), markets, sizeOf, symbol)
    requires symbol in Run(NewAccount(balance), events).positions
             && price == Run(NewAccount(balance), events).positions[symbol].averagePrice > 0.0
    ensures var snap := Snapshot(Run(NewAccount(balance), events), markets, today);
            snap.Reconcile().Applicable? ==>
              (snap.Reconcile().difference == 0.0 <==> QuotedSize(markets(symbol)) == sizeOf(symbol))
  {
    RunAtSizes(balance, events, sizeOf);
    RevisedQuoteOf(
      Run(NewAccount(balance), events), AuditRun(NewAccount(balance), events, NO_AUDIT), sizeOf, markets, today, symbol,
      price);
  }

  const FREE := FeeSchedule(0.0, 0.0, 0.0, 0.0, true)

  const BUY_ONE := Order(
    FREE, OrderRequest("1", "A", Some(OB.Buy), 1, 0, 0),
    Market(Some(Contract("a", 1000, 9)), Some(OB.OrderBook("A", [], [OB.BookLevel(10.0, 1, 1)]))))

  const SELL_ONE := Order(
    FREE, OrderRequest("2", "A", Some(OB.Sell), 1, 0, 1),
    Market(Some(Contract("a", 1100, 9)), Some(OB.OrderBook("A", [OB.BookLevel(12.0, 1, 1)], []))))

  lemma QuoteOfOne(level: OB.BookLevel)
    requires level.IsReal() && level.quantity == 1
    ensures OB.Quote([level], 1) == (Some(level.price), 1)
  {
    assert [level][1..] == [] && Worth(0, level.price) == 0.0;
    assert OB.RealDepth([level]) == 1;
    assert OB.Cost([level], 1) == Worth(1, level.price) + OB.Cost([level][1..], 0);
  }

  lemma DecideOnOne(t: Tables, request: OrderRequest, m: Market, price: real)
    requires Sane(t) && t.account.value.cash >= 10_000.0
    requires || (request == BUY_ONE.request && m == BUY_ONE.market && price == 10.0)
             || (request == SELL_ONE.request && m == SELL_ONE.market && price == 12.0 && Held(t, "A") == 1)
    ensures Decide(t, FREE, request, m) == Fill(price, 1, 0.0, m.contract.value.contractSize)
  {
    QuoteOfOne(OB.BookLevel(price, 1, 1));
    MoneyIsProduct(price, 1, m.contract.value.contractSize);
  }

  const ONE_HELD := Position(1, 10.0, 0, 0.0, true)

  lemma BuyOne(t: Tables, a: Audit, e: Event, sizeOf: string -> int)
    requires t == NewAccount(100_000.0) && a == NO_AUDIT && e == BUY_ONE && sizeOf("A") == 1000
    ensures After(t, e).positions == map["A" := ONE_HELD] && Summary(After(t, e).trades).CostsComplete()
    ensures After(t, e).account.value.cash == 90_000.0 && AtTheirSizes(After(t, e), AuditAfter(t, e, a), sizeOf)
  {
    DecideOnOne(t, e.request, e.market, 10.0);
    MoneyIsProduct(10.0, 1, 1000);
    NewAccountSizes(100_000.0, sizeOf);
    OrderKeepsSizes(t, FREE, e.request, e.market, a, sizeOf);
  }

  /** Closing all of the only position at known costs leaves nothing open and everything known. */
  lemma SoldOut(
    t: Tables, after: Tables, symbol: string, p: Position, fee: real, trade: Trade)
    requires t.positions == map[symbol := p] && Summary(t.trades).CostsComplete()
    requires trade.entryFee.Some? && trade.exitFee.Some?
    requires after.positions == t.WithPosition(symbol, p.(quantity := 0, entryFees := 0.0)).positions
    requires after.trades == t.trades + [trade]
    ensures after.positions == map[] && CostsKnown(after)
  {
    CompleteStays(t.trades, trade);
    assert after.positions == t.positions - {symbol};
  }

  lemma CompleteStays(trades: seq<Trade>, trade: Trade)
    requires Summary(trades).CostsComplete() && trade.entryFee.Some? && trade.exitFee.Some?
    ensures Summary(trades + [trade]).CostsComplete()
  {
    SummaryAppend(trades, trade);
  }

  lemma SellOneRows(t: Tables, e: Event)
    requires e == SELL_ONE && Sane(t) && t.positions == map["A" := ONE_HELD] && t.account.value.cash >= 10_000.0
    requires Summary(t.trades).CostsComplete()
    ensures After(t, e).positions == map[] && CostsKnown(After(t, e)) && Closes(t, e, "A", 1, 1100)
  {
    var trade := CloseRecord("A", 1, 10.0, 12.0, Some(0.0), Some(0.0), 1100, 0, 1);
    DecideOnOne(t, e.request, e.market, 12.0);
    SaleBalances(t, "A", 1, 12.0, 0.0, true, 1, 1100, 0.0, ONE_HELD.(quantity := 0, entryFees := 0.0), trade);
    SoldOut(t, After(t, e), "A", ONE_HELD, 0.0, trade);
  }

  lemma SellOne(t: Tables, a: Audit, e: Event, sizeOf: string -> int)
    requires AtTheirSizes(t, a, sizeOf) && t.positions == map["A" := ONE_HELD] && Summary(t.trades).CostsComplete()
    requires e == SELL_ONE && sizeOf("A") == 1000 && t.account.value.cash >= 10_000.0
    ensures After(t, e).positions == map[] && CostsKnown(After(t, e))
    ensures AuditAfter(t, e, a).spent == map[] && AuditAfter(t, e, a).slip == 1_000.0
  {
    SellOneRows(t, e);
    ClosingSlips(t, a, e, "A", 1, 1100, sizeOf);
    MoneyIsProduct(10.0, 1, 1100);
    MoneyIsProduct(10.0, 1, 1000);
    assert CostMap(map[], sizeOf) == map[];
  }

  lemma SumOfNone(m: map<string, real>)
    requires m == map[]
    ensures SumMap(m) == 0.0
  {}

  /** Nothing is open, and the reconciliation misses by this amount. */
  ghost predicate Unexplained(snap: AccountSnapshot, amount: real) {
    snap.positions == map[] && snap.Reconcile().Applicable? && snap.Reconcile().difference == amount
  }

  lemma EmptySnapshot(snap: AccountSnapshot, quoted: real, spent: real, slip: real)
    requires Slips(snap, quoted, spent, slip) && snap.positions == map[] && snap.realized.CostsComplete()
    requires quoted == 0.0 && spent == 0.0
    ensures Unexplained(snap, slip)
  {}

  lemma NothingOpen(
    t: Tables, markets: string -> Market, today: int, snap: AccountSnapshot, costs: map<string, real>,
    spent: map<string, real>, slip: real)
    requires Sane(t) && t.positions == map[] && CostsKnown(t) && spent == map[]
    requires snap == Snapshot(t, markets, today) && costs == QuotedCosts(t.positions, markets)
    requires Slips(snap, SumMap(costs), SumMap(spent), slip)
    ensures Unexplained(snap, slip)
  {
    assert costs == map[] && snap.positions == map[];
    SumOfNone(costs);
    SumOfNone(spent);
    EmptySnapshot(snap, SumMap(costs), SumMap(spent), slip);
  }

  /** Bought at 10 with 1000 shares, sold at 12 with 1100: nothing is open, and 1000 are unexplained. */
  lemma RevisionBeforeSaleFails(events: seq<Event>, markets: string -> Market, today: int)
    requires events == [BUY_ONE, SELL_ONE]
    ensures Unexplained(Snapshot(Run(NewAccount(100_000.0), events), markets, today), 1_000.0)
  {
    var start, first, second := NewAccount(100_000.0), events[0], events[1];
    RunOfTwo(start, first, second, events);
    RevisedSale(start, first, second, markets, today);
  }

  lemma RunOfTwo(t: Tables, first: Event, second: Event, events: seq<Event>)
    requires Sane(t) && events == [first, second]
    ensures Sane(After(t, first)) && Run(t, events) == After(After(t, first), second)
  {
    AfterKeepsSane(t, first);
    assert events[..1] == [first] && [first][..0] == [];
    assert Run(t, [first]) == After(Run(t, []), first);
  }

  lemma RevisedSale(start: Tables, first: Event, second: Event, markets: string -> Market, today: int)
    requires start == NewAccount(100_000.0) && first == BUY_ONE && second == SELL_ONE && Sane(After(start, first))
    ensures Sane(After(After(start, first), second))
    ensures Unexplained(Snapshot(After(After(start, first), second), markets, today), 1_000.0)
  {
    var t, a, sizeOf := After(start, first), AuditAfter(start, first, NO_AUDIT), (s: string) => 1000;
    BoughtOne(start, first, t, a, sizeOf);
    RevisedSecond(t, a, second, sizeOf, markets, today);
  }

  lemma BoughtOne(start: Tables, first: Event, t: Tables, a: Audit, sizeOf: string -> int)
    requires start == NewAccount(100_000.0) && first == BUY_ONE && sizeOf("A") == 1000
    requires t == After(start, first) && a == AuditAfter(start, first, NO_AUDIT)
    ensures Ledger(t, a) && AtTheirSizes(t, a, sizeOf) && t.positions == map["A" := ONE_HELD]
    ensures t.account.value.cash == 90_000.0 && Summary(t.trades).CostsComplete()
  {
    BuyOne(start, NO_AUDIT, first, sizeOf);
    FirstEventLedger(100_000.0, start, first);
  }

  lemma FirstEventLedger(balance: real, start: Tables, e: Event)
    requires start == NewAccount(balance)
    ensures Ledger(After(start, e), AuditAfter(start, e, NO_AUDIT))
  {
    NewAccountLedger(balance);
    EventKeepsLedger(start, e, NO_AUDIT);
  }

  lemma RevisedSecond(
    t: Tables, a: Audit, e: Event, sizeOf: string -> int, markets: string -> Market, today: int)
    requires Ledger(t, a) && AtTheirSizes(t, a, sizeOf) && t.positions == map["A" := ONE_HELD]
    requires e == SELL_ONE && sizeOf("A") == 1000 && t.account.value.cash >= 10_000.0
    requires Summary(t.trades).CostsComplete()
    ensures Sane(After(t, e))
    ensures Unexplained(Snapshot(After(t, e), markets, today), 1_000.0)
  {
    SellOne(t, a, e, sizeOf);
    EventKeepsLedger(t, e, a);
    SnapshotSlips(After(t, e), AuditAfter(t, e, a), markets, today);
    NothingOpen(
      After(t, e), markets, today, Snapshot(After(t, e), markets, today), QuotedCosts(After(t, e).positions, markets),
      AuditAfter(t, e, a).spent, AuditAfter(t, e, a).slip);
  }

  lemma SameMoneySameSize(price: real, quantity: int, s1: int, s2: int, m1: real, m2: real)
    requires price > 0.0 && quantity > 0 && m1 == Money(price, quantity, s1) && m2 == Money(price, quantity, s2)
    ensures m1 == m2 <==> s1 == s2
  {
    var unit, x1, x2 := price * quantity as real, s1 as real, s2 as real;
    MulPositive(price, quantity as real);
    MoneyIsProduct(price, quantity, s1);
    MoneyIsProduct(price, quantity, s2);
    SameMultiple(unit, x1, x2, m1, m2);
  }

  lemma SameMultiple(unit: real, x1: real, x2: real, m1: real, m2: real)
    requires unit > 0.0 && m1 == unit * x1 && m2 == unit * x2
    ensures m1 == m2 <==> x1 == x2
  {
    if m1 == m2 {
      CancelFactor(x1, x2, unit);
      CancelFactor(x2, x1, unit);
    }
  }
}

/** Unknown costs stay unknown, every fee is recorded once, and cash does not sink. */
module PaperCosts {
  import opened Common
  import opened Fees
  import opened PaperAccount
  import opened PaperTradingStores
  import opened PaperBrokers
  import opened PaperLedger
  import opened PaperReconciliation
  import OB = OrderBooks

  // ---- Costs that are not known, and fees that land once ---------------------------------------------

  lemma IncompleteStays(trades: seq<Trade>, trade: Trade)
    requires !Summary(trades).CostsComplete() || trade.entryFee.None?
    ensures !Summary(trades + [trade]).CostsComplete()
  {
    SummaryAppend(trades, trade);
  }

  lemma IgnoranceStays(t: Tables, after: Tables, symbol: string, left: Position, trade: Trade)
    requires symbol in t.positions && !CostsKnown(t)
    requires left.entryFeesKnown == t.positions[symbol].entryFeesKnown == trade.entryFee.Some?
    requires after.positions == t.WithPosition(symbol, left).positions && after.trades == t.trades + [trade]
    ensures !CostsKnown(after)
  {
    if !Summary(t.trades).CostsComplete() || !left.entryFeesKnown {
      IncompleteStays(t.trades, trade);
    } else {
      var s :| s in t.positions && !t.positions[s].entryFeesKnown;
      assert s in after.positions && !after.positions[s].entryFeesKnown;
    }
  }

  lemma SaleKeepsIgnorance(
    t: Tables, symbol: string, filled: int, exit: real, fee: real, known: bool, now: int, size: int)
    requires Sane(t) && symbol in t.positions && 0 < filled <= t.positions[symbol].quantity && !CostsKnown(t)
    ensures !CostsKnown(Sold(t, symbol, filled, exit, fee, known, now, size))
  {
    var p := t.positions[symbol];
    var share := AllocateEntryFee(p.entryFees, filled, p.quantity);
    var left := p.(quantity := p.quantity - filled, entryFees := p.entryFees - share);
    var trade := CloseRecord(
      symbol, filled, p.averagePrice, exit, If(p.entryFeesKnown, share), If(known, fee), size, p.openedAt, now);
    SaleBalances(t, symbol, filled, exit, fee, known, now, size, share, left, trade);
    IgnoranceStays(t, Sold(t, symbol, filled, exit, fee, known, now, size), symbol, left, trade);
  }

  /** Ignorance is absorbing: once some cost is unknown, only a reset makes the costs known again. */
  lemma IgnoranceIsAbsorbing(t: Tables, e: Event)
    requires Sane(t) && !CostsKnown(t) && !e.Reset?
    ensures !CostsKnown(After(t, e))
  {
    match e
    case Order(fees, r, m) =>
      var d := Decide(t, fees, r, m);
      if d.Fill? {
        DecideFacts(t, fees, r, m);
        if r.side.value.Sell? {
          SaleKeepsIgnorance(t, r.symbol, d.filled, d.average, d.fee, fees.RatesKnown(), r.now, d.size);
        } else if Summary(t.trades).CostsComplete() {
          var s :| s in t.positions && !t.positions[s].entryFeesKnown;
          assert s in After(t, e).positions && !After(t, e).positions[s].entryFeesKnown;
        }
      }
    case Settle(fees, symbol, price, m, today, now) =>
      if SettleCheck(t, symbol, price, m, today).None? {
        var q, size := t.positions[symbol].quantity, m.contract.value.contractSize;
        SettleIsSale(t, fees, symbol, price.value, size, now);
        SaleKeepsIgnorance(t, symbol, q, price.value, fees.SellCost(Money(price.value, q, size)), fees.RatesKnown(),
          now, size);
      }
    case Reopen(_, _) =>
    case RaisedMidway =>
  }

  ghost predicate NoReset(events: seq<Event>) { forall i :: 0 <= i < |events| ==> !events[i].Reset? }

  /** However many events follow, until a reset. */
  lemma {:induction false} IgnoranceLasts(t: Tables, events: seq<Event>)
    requires Sane(t) && !CostsKnown(t) && NoReset(events)
    ensures !CostsKnown(Run(t, events))
  {
    if events != [] {
      var front := events[..|events| - 1];
      IgnoranceLasts(t, front);
      IgnoranceIsAbsorbing(Run(t, front), events[|events| - 1]);
    }
  }

  ghost predicate ChargesNonNegative(e: Event) {
    match e
    case Order(fees, _, _) => fees.NonNegative()
    case Settle(fees, _, _, _, _, _) => fees.NonNegative()
    case _ => true
  }

  lemma ShareIsBetween(total: real, closing: int, held: int)
    requires total >= 0.0 && 0 < closing <= held
    ensures 0.0 <= AllocateEntryFee(total, closing, held) <= total
  {
    var c, h := closing as real, held as real;
    MulLe(0.0, c, total);
    MulLe(c, h, total);
    DivideBound(total * c, h, total);
    DivLe(0.0, total * c, h);
  }

  lemma SaleKeepsFloor(
    t: Tables, symbol: string, filled: int, exit: real, fee: real, known: bool, now: int, size: int, a: Audit)
    requires Sane(t) && FeesFloor(t, a) && symbol in t.positions && 0 < filled <= t.positions[symbol].quantity
    ensures FeesFloor(Sold(t, symbol, filled, exit, fee, known, now, size),
              AuditAfterSale(a, symbol, t.positions[symbol], filled, fee, size))
  {
    var p := t.positions[symbol];
    ShareIsBetween(p.entryFees, filled, p.quantity);
  }

  lemma EventKeepsFloor(t: Tables, e: Event, a: Audit)
    requires Sane(t) && FeesFloor(t, a) && ChargesNonNegative(e)
    ensures FeesFloor(After(t, e), AuditAfter(t, e, a))
  {
    match e
    case Order(fees, r, m) =>
      var d := Decide(t, fees, r, m);
      if d.Fill? {
        DecideFacts(t, fees, r, m);
        if r.side.value.Sell? {
          SaleKeepsFloor(t, r.symbol, d.filled, d.average, d.fee, fees.RatesKnown(), r.now, d.size, a);
        } else {
          CostsAreNonNegative(fees, Money(d.average, d.filled, d.size));
        }
      }
    case Settle(fees, symbol, price, m, today, now) =>
      if SettleCheck(t, symbol, price, m, today).None? {
        var q, size := t.positions[symbol].quantity, m.contract.value.contractSize;
        var fee := fees.SellCost(Money(price.value, q, size));
        SettleIsSale(t, fees, symbol, price.value, size, now);
        SaleKeepsFloor(t, symbol, q, price.value, fee, fees.RatesKnown(), now, size, a);
      }
    case _ =>
  }

  ghost predicate NoRebates(events: seq<Event>) {
    forall i :: 0 <= i < |events| ==> ChargesNonNegative(events[i])
  }

  lemma {:induction false} RunKeepsFloor(t: Tables, events: seq<Event>, a: Audit)
    requires Sane(t) && FeesFloor(t, a) && NoRebates(events)
    ensures FeesFloor(Run(t, events), AuditRun(t, events, a))
  {
    if events != [] {
      var front := events[..|events| - 1];
      RunKeepsFloor(t, front, a);
      EventKeepsFloor(Run(t, front), events[|events| - 1], AuditRun(t, front, a));
    }
  }

  lemma LedgerRecords(t: Tables, a: Audit, snap: AccountSnapshot, costs: map<string, real>)
    requires Ledger(t, a) && Mirrors(snap, t, costs)
    ensures snap.CostsKnown() ==> snap.TotalCostsRecorded() == a.paid
    ensures FeesFloor(t, a) ==> snap.TotalCostsRecorded() <= a.paid
  {}

  lemma SnapshotRecords(t: Tables, a: Audit, markets: string -> Market, today: int)
    requires Ledger(t, a)
    ensures Snapshot(t, markets, today).CostsKnown() ==> Snapshot(t, markets, today).TotalCostsRecorded() == a.paid
    ensures FeesFloor(t, a) ==> Snapshot(t, markets, today).TotalCostsRecorded() <= a.paid
  {
    SnapshotMirrors(t, markets, today);
    LedgerRecords(t, a, Snapshot(t, markets, today), QuotedCosts(t.positions, markets));
  }

  /**
   * Over every run the recorded costs are the fees really paid since the last reset as long as
   * the costs are known, and with non-negative schedules never more than them.
   */
  lemma RecordedCostsAreFeesPaid(balance: real, events: seq<Event>, markets: string -> Market, today: int)
    ensures var snap, paid := Snapshot(Run(NewAccount(balance), events), markets, today),
                              AuditRun(NewAccount(balance), events, NO_AUDIT).paid;
            && (snap.CostsKnown() ==> snap.TotalCostsRecorded() == paid)
            && (NoRebates(events) ==> snap.TotalCostsRecorded() <= paid)
  {
    FromNewAccount(balance, events);
    SnapshotRecords(
      Run(NewAccount(balance), events), AuditRun(NewAccount(balance), events, NO_AUDIT), markets, today);
    if NoRebates(events) {
      RunKeepsFloor(NewAccount(balance), events, NO_AUDIT);
    }
  }

  // ---- Cash -------------------------------------------------------------------------------------------

  /** No fixed fee, and a sale never costs more than it brings. */
  ghost predicate Gentle(fees: FeeSchedule) {
    fees.NonNegative() && fees.perOrder == 0.0 && fees.sellRate + fees.sellTaxRate <= 1.0
  }

  ghost predicate GentleEvent(e: Event) {
    match e
    case Order(fees, _, m) => Gentle(fees) && (m.contract.Some? ==> m.contract.value.contractSize >= 0)
    case Settle(fees, _, _, m, _, _) => Gentle(fees) && (m.contract.Some? ==> m.contract.value.contractSize >= 0)
    case _ => true
  }

  lemma {:induction false} CostIsNotNegative(levels: seq<OB.BookLevel>, quantity: int)
    ensures OB.Cost(levels, quantity) >= 0.0
  {
    if levels != [] && quantity > 0 {
      if levels[0].IsReal() {
        var take := MinInt(quantity, levels[0].quantity);
        CostIsNotNegative(levels[1..], quantity - take);
        WorthIsNotNegative(take, levels[0].price);
      } else {
        CostIsNotNegative(levels[1..], quantity);
      }
    }
  }

  lemma MoneyIsNotNegative(price: real, quantity: int, size: int)
    requires price >= 0.0 && quantity >= 0 && size >= 0
    ensures Money(price, quantity, size) >= 0.0
  {
    WorthIsNotNegative(quantity, price);
    WorthIsNotNegative(size, Worth(quantity, price));
  }

  lemma ProceedsCoverFee(fees: FeeSchedule, notional: real)
    requires Gentle(fees) && notional >= 0.0
    ensures notional - fees.SellCost(notional) >= 0.0
  {
    MulLe(fees.sellRate + fees.sellTaxRate, 1.0, notional);
  }

  /** A purchase may overdraw by the tolerance only; with gentle fees nothing else lowers cash. */
  lemma CashStaysAboveFloor(t: Tables, e: Event)
    requires Sane(t) && GentleEvent(e)
    requires t.account.value.cash >= -RECONCILIATION_TOLERANCE
             && t.account.value.initialBalance >= -RECONCILIATION_TOLERANCE
    ensures After(t, e).account.value.cash >= -RECONCILIATION_TOLERANCE
    ensures After(t, e).account.value.initialBalance == t.account.value.initialBalance
  {
    match e
    case Order(fees, r, m) =>
      var d := Decide(t, fees, r, m);
      if d.Fill? {
        DecideFacts(t, fees, r, m);
        if r.side.value.Sell? {
          SaleProceeds(fees, m.book.value.bids, r.quantity, d);
        }
      }
    case Settle(fees, symbol, price, m, today, now) =>
      if SettleCheck(t, symbol, price, m, today).None? {
        var q, size := t.positions[symbol].quantity, m.contract.value.contractSize;
        MoneyIsNotNegative(price.value, q, size);
        ProceedsCoverFee(fees, Money(price.value, q, size));
      }
    case _ =>
  }

  lemma SaleProceeds(fees: FeeSchedule, bids: seq<OB.BookLevel>, quantity: int, d: Decision)
    requires Gentle(fees) && d.Fill? && d.filled > 0 && d.size >= 0
    requires OB.Quote(bids, quantity) == (Some(d.average), d.filled)
             && d.fee == fees.SellCost(Money(d.average, d.filled, d.size))
    ensures Money(d.average, d.filled, d.size) - d.fee >= 0.0
  {
    CostIsNotNegative(bids, quantity);
    DivLe(0.0, OB.Cost(bids, quantity), d.filled as real);
    MoneyIsNotNegative(d.average, d.filled, d.size);
    ProceedsCoverFee(fees, Money(d.average, d.filled, d.size));
  }

  lemma {:induction false} EveryRunKeepsCash(balance: real, events: seq<Event>)
    requires balance >= -RECONCILIATION_TOLERANCE && forall i :: 0 <= i < |events| ==> GentleEvent(events[i])
    ensures Run(NewAccount(balance), events).account.value.cash >= -RECONCILIATION_TOLERANCE
    ensures Run(NewAccount(balance), events).account.value.initialBalance == balance
  {
    if events != [] {
      var front := events[..|events| - 1];
      EveryRunKeepsCash(balance, front);
      CashStaysAboveFloor(Run(NewAccount(balance), front), events[|events| - 1]);
    }
  }
}
