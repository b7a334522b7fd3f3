/**
 * What every run of the paper account keeps: the reconciliation identity that
 * execution/paper_account.py documents, the single landing of every fee, and the cash floor.
 */
module PaperLedger {
  import opened Common
  import opened Fees
  import opened PaperAccount
  import opened PaperTradingStores
  import opened PaperBrokers
  import OB = OrderBooks

  // ---- Money ------------------------------------------------------------------------------

  lemma MoneyAdds(price: real, q1: int, q2: int, size: int)
    ensures Money(price, q1 + q2, size) == Money(price, q1, size) + Money(price, q2, size)
  {
    WorthAdds(q1, q2, price);
    WorthOfSum(size, Worth(q1, price), Worth(q2, price));
  }

  lemma MoneyDiffers(exit: real, entry: real, quantity: int, size: int)
    ensures Money(exit - entry, quantity, size) == Money(exit, quantity, size) - Money(entry, quantity, size)
  {
    WorthOfSum(quantity, exit, entry);
    WorthOfSum(size, Worth(quantity, exit), Worth(quantity, entry));
  }

  lemma AverageTimesQuantity(q1: int, p1: real, q2: int, p2: real)
    requires q1 + q2 != 0
    ensures Worth(q1 + q2, WeightedAverage(q1, p1, q2, p2)) == Worth(q1, p1) + Worth(q2, p2)
  {
    var total, n := q1 as real * p1 + q2 as real * p2, (q1 + q2) as real;
    MultiplyBack(total, n);
    WorthIsProduct(q1, p1);
    WorthIsProduct(q2, p2);
    WorthIsProduct(q1 + q2, total / n);
  }

  /** Averaging a purchase in keeps the money spent: the whole point of the weighted average. */
  lemma MoneyOfAverage(q1: int, p1: real, q2: int, p2: real, size: int)
    requires q1 + q2 != 0
    ensures Money(WeightedAverage(q1, p1, q2, p2), q1 + q2, size) == Money(p1, q1, size) + Money(p2, q2, size)
  {
    AverageTimesQuantity(q1, p1, q2, p2);
    WorthOfSum(size, Worth(q1, p1), Worth(q2, p2));
  }

  // ---- The ledger invariant -----------------------------------------------------------------

  ghost function FeeMap(positions: map<string, Position>): map<string, real> {
    map s | s in positions :: positions[s].entryFees
  }

  /**
   * What really happened since the last reset: fees paid, the part of them no record shows any
   * more, the money spent on what is open, and what sales at revised contract sizes made up.
   */
  datatype Audit = Audit(paid: real, hidden: real, spent: map<string, real>, slip: real)

  const NO_AUDIT := Audit(0.0, 0.0, map[], 0.0)

  /**
   * Unconditionally: cash plus the money spent on what is open equals the opening balance plus
   * the gross profit of what is closed minus every fee paid, plus what revised contract sizes
   * made up. The recorded fees are the paid ones except for shares that left with a trade whose
   * entry cost is unknown.
   */
  ghost predicate Ledger(t: Tables, a: Audit) {
    && Sane(t) && a.spent.Keys == t.positions.Keys
    && t.account.value.cash + SumMap(a.spent)
       == t.account.value.initialBalance + Summary(t.trades).gross - a.paid + a.slip
    && a.paid == Summary(t.trades).Costs() + SumMap(FeeMap(t.positions)) + a.hidden
    && (Summary(t.trades).missingEntry == 0 ==> a.hidden == 0.0)
  }

  ghost predicate CostsKnown(t: Tables) {
    Summary(t.trades).CostsComplete() && forall s :: s in t.positions ==> t.positions[s].entryFeesKnown
  }

  /** No fee was ever negative. */
  ghost predicate FeesFloor(t: Tables, a: Audit) {
    a.hidden >= 0.0 && forall s :: s in t.positions ==> t.positions[s].entryFees >= 0.0
  }

  function ValueAt(m: map<string, real>, k: string): real { if k in m then m[k] else 0.0 }

  lemma SumAfterUpsert(m: map<string, real>, k: string, v: real)
    ensures SumMap(m[k := v]) == SumMap(m) - ValueAt(m, k) + v
  {
    SumMapRemove(m[k := v], k);
    assert m[k := v] - {k} == m - {k};
    SumAfterRemoval(m, k);
  }

  lemma SumAfterRemoval(m: map<string, real>, k: string)
    ensures SumMap(m - {k}) == SumMap(m) - ValueAt(m, k)
  {
    if k in m {
      SumMapRemove(m, k);
    } else {
      assert m - {k} == m;
    }
  }

  // ---- Every operation keeps it -----------------------------------------------------------------

  /** The ledger is linear in the sums it is made of. */
  lemma LedgerMoves(
    t: Tables, after: Tables, a: Audit, b: Audit, cash: real, spent: real, gross: real, fees: real, costs: real)
    requires Ledger(t, a) && Sane(after) && b.spent.Keys == after.positions.Keys
    requires after.account.value == Account(t.account.value.cash + cash, t.account.value.initialBalance)
    requires SumMap(b.spent) == SumMap(a.spent) + spent
    requires SumMap(FeeMap(after.positions)) == SumMap(FeeMap(t.positions)) + fees
    requires Summary(after.trades).gross == Summary(t.trades).gross + gross
    requires Summary(after.trades).Costs() == Summary(t.trades).Costs() + costs
    requires Summary(after.trades).missingEntry == 0 ==> Summary(t.trades).missingEntry == 0 && b.hidden == a.hidden
    requires cash + spent == gross - (b.paid - a.paid) + (b.slip - a.slip)
    requires b.paid - a.paid == costs + fees + (b.hidden - a.hidden)
    ensures Ledger(after, b)
  {}

  function AuditAfterBuy(a: Audit, symbol: string, money: real, fee: real): Audit {
    Audit(a.paid + fee, a.hidden, a.spent[symbol := ValueAt(a.spent, symbol) + money], a.slip)
  }

  /** The money spent on what is open when `gone` of it has left with a part or all of one position. */
  function SpentAfterSale(spent: map<string, real>, symbol: string, all: bool, gone: real): map<string, real> {
    if all then spent - {symbol} else spent[symbol := ValueAt(spent, symbol) - gone]
  }

  /**
   * The money spent leaves by the same rule as the entry fee. What the trade books as its cost is
   * figured at today's contract size; the rest of it slips.
   */
  function AuditAfterSale(a: Audit, symbol: string, p: Position, filled: int, fee: real, size: int): Audit {
    var share := AllocateEntryFee(p.entryFees, filled, p.quantity);
    var gone := AllocateEntryFee(ValueAt(a.spent, symbol), filled, p.quantity);
    Audit(a.paid + fee, a.hidden + if p.entryFeesKnown then 0.0 else share,
      SpentAfterSale(a.spent, symbol, filled >= p.quantity, gone), a.slip + Money(p.averagePrice, filled, size) - gone)
  }

  lemma FeesAfterUpsert(positions: map<string, Position>, symbol: string, next: Position)
    ensures SumMap(FeeMap(positions[symbol := next]))
         == SumMap(FeeMap(positions)) - ValueAt(FeeMap(positions), symbol) + next.entryFees
  {
    SumAfterUpsert(FeeMap(positions), symbol, next.entryFees);
    assert FeeMap(positions[symbol := next]) == FeeMap(positions)[symbol := next.entryFees];
  }

  lemma BuyBalances(
    t: Tables, symbol: string, filled: int, average: real, fee: real, known: bool, now: int, size: int, spent: real)
    requires Sane(t) && filled > 0 && spent == Money(average, filled, size)
    ensures var after := Bought(t, symbol, filled, average, fee, known, now, size);
            && Sane(after)
            && after.positions == t.positions[symbol := Enlarged(t, symbol, filled, average, fee, known, now)]
            && after.trades == t.trades
            && after.account.value == Account(t.account.value.cash - spent - fee, t.account.value.initialBalance)
  {}

  lemma BuyKeepsLedger(
    t: Tables, symbol: string, filled: int, average: real, fee: real, known: bool, now: int, size: int, a: Audit)
    requires Ledger(t, a) && filled > 0
    ensures Ledger(Bought(t, symbol, filled, average, fee, known, now, size),
              AuditAfterBuy(a, symbol, Money(average, filled, size), fee))
  {
    var money := Money(average, filled, size);
    BuyBalances(t, symbol, filled, average, fee, known, now, size, money);
    LedgerAfterBuy(
      t, Bought(t, symbol, filled, average, fee, known, now, size), symbol,
      Enlarged(t, symbol, filled, average, fee, known, now), a, money, fee);
  }

  lemma LedgerAfterBuy(
    t: Tables, after: Tables, symbol: string, next: Position, a: Audit, money: real, fee: real)
    requires Ledger(t, a) && Sane(after) && after.trades == t.trades && after.positions == t.positions[symbol := next]
    requires next.entryFees == ValueAt(FeeMap(t.positions), symbol) + fee
    requires after.account.value == Account(t.account.value.cash - money - fee, t.account.value.initialBalance)
    ensures Ledger(after, AuditAfterBuy(a, symbol, money, fee))
  {
    var b, v := AuditAfterBuy(a, symbol, money, fee), ValueAt(a.spent, symbol) + money;
    FeesAfterUpsert(t.positions, symbol, next);
    assert b.spent == a.spent[symbol := v];
    SumAfterUpsert(a.spent, symbol, v);
    LedgerMoves(t, after, a, b, -money - fee, money, 0.0, fee, 0.0);
  }

  lemma FeesAfterSale(t: Tables, symbol: string, share: real, left: Position)
    requires symbol in t.positions && left.entryFees == t.positions[symbol].entryFees - share
    requires left.quantity <= 0 ==> left.entryFees == 0.0
    ensures SumMap(FeeMap(t.WithPosition(symbol, left).positions)) == SumMap(FeeMap(t.positions)) - share
  {
    if left.quantity > 0 {
      var kept := left.(openedAt := t.positions[symbol].openedAt);
      FeesAfterUpsert(t.positions, symbol, kept);
    } else {
      SumAfterRemoval(FeeMap(t.positions), symbol);
      assert FeeMap(t.positions - {symbol}) == FeeMap(t.positions) - {symbol};
    }
  }

  lemma SpentLess(spent: map<string, real>, symbol: string, all: bool, gone: real)
    requires symbol in spent && (all ==> gone == spent[symbol])
    ensures SumMap(SpentAfterSale(spent, symbol, all, gone)) == SumMap(spent) - gone
  {
    var after := SpentAfterSale(spent, symbol, all, gone);
    if all {
      assert after == spent - {symbol};
      SumAfterRemoval(spent, symbol);
    } else {
      var v := spent[symbol] - gone;
      assert after == spent[symbol := v];
      SumAfterUpsert(spent, symbol, v);
    }
  }

  lemma SameKeysAfterSale(t: Tables, spent: map<string, real>, symbol: string, left: Position, gone: real)
    requires symbol in t.positions && spent.Keys == t.positions.Keys
    ensures SpentAfterSale(spent, symbol, left.quantity <= 0, gone).Keys == t.WithPosition(symbol, left).positions.Keys
  {}

  lemma SellKeepsLedger(
    t: Tables, symbol: string, filled: int, exit: real, fee: real, known: bool, now: int, size: int, a: Audit)
    requires Ledger(t, a) && symbol in t.positions && 0 < filled <= t.positions[symbol].quantity
    requires !known ==> fee == 0.0
    ensures Ledger(Sold(t, symbol, filled, exit, fee, known, now, size),
                   AuditAfterSale(a, symbol, t.positions[symbol], filled, fee, size))
  {
    var p := t.positions[symbol];
    var share := AllocateEntryFee(p.entryFees, filled, p.quantity);
    var left := p.(quantity := p.quantity - filled, entryFees := p.entryFees - share);
    var trade := CloseRecord(
      symbol, filled, p.averagePrice, exit, If(p.entryFeesKnown, share), If(known, fee), size, p.openedAt, now);
    SaleBalances(t, symbol, filled, exit, fee, known, now, size, share, left, trade);
    MoneyDiffers(exit, p.averagePrice, filled, size);
    LedgerAfterSale(
      t, Sold(t, symbol, filled, exit, fee, known, now, size), symbol, share, left, trade, a,
      AuditAfterSale(a, symbol, p, filled, fee, size), Money(exit, filled, size), Money(p.averagePrice, filled, size),
      AllocateEntryFee(ValueAt(a.spent, symbol), filled, p.quantity), fee);
  }

  /** The fields of the tables after a sale, spelled out. */
  lemma SaleBalances(
    t: Tables, symbol: string, filled: int, exit: real, fee: real, known: bool, now: int, size: int,
    share: real, left: Position, trade: Trade)
    requires Sane(t) && symbol in t.positions && 0 < filled <= t.positions[symbol].quantity
    requires var p := t.positions[symbol];
             && share == AllocateEntryFee(p.entryFees, filled, p.quantity)
             && left == p.(quantity := p.quantity - filled, entryFees := p.entryFees - share)
             && trade == CloseRecord(symbol, filled, p.averagePrice, exit, If(p.entryFeesKnown, share), If(known, fee),
               size, p.openedAt, now)
    ensures var after := Sold(t, symbol, filled, exit, fee, known, now, size);
            && Sane(after) && after.positions == t.WithPosition(symbol, left).positions
            && after.trades == t.trades + [trade]
            && after.account.value
               == Account(t.account.value.cash + Money(exit, filled, size) - fee, t.account.value.initialBalance)
  {}

  /** `got` came in, `cost` is booked as the cost, and `gone` is what the contracts really cost. */
  lemma LedgerAfterSale(
    t: Tables, after: Tables, symbol: string, share: real, left: Position, trade: Trade, a: Audit, b: Audit,
    got: real, cost: real, gone: real, fee: real)
    requires Ledger(t, a) && Sane(after) && symbol in t.positions && (trade.exitFee.None? ==> fee == 0.0)
    requires left.entryFees == t.positions[symbol].entryFees - share
    requires left.quantity <= 0 ==> left.entryFees == 0.0 && gone == a.spent[symbol]
    requires trade.grossPnl == got - cost && (trade.exitFee.Some? ==> trade.exitFee.value == fee)
    requires trade.entryFee == If(t.positions[symbol].entryFeesKnown, share)
    requires after.account.value == Account(t.account.value.cash + got - fee, t.account.value.initialBalance)
    requires after.positions == t.WithPosition(symbol, left).positions && after.trades == t.trades + [trade]
    requires b == Audit(a.paid + fee, a.hidden + if t.positions[symbol].entryFeesKnown then 0.0 else share,
                        SpentAfterSale(a.spent, symbol, left.quantity <= 0, gone), a.slip + cost - gone)
    ensures Ledger(after, b)
  {
    FeesAfterSale(t, symbol, share, left);
    SpentLess(a.spent, symbol, left.quantity <= 0, gone);
    SameKeysAfterSale(t, a.spent, symbol, left, gone);
    SummaryAppend(t.trades, trade);
    LedgerMoves(
      t, after, a, b, got - fee, -gone, got - cost, -share, Known(trade.entryFee) + Known(trade.exitFee));
  }

  /** Settling is selling the whole position at the given price. */
  lemma SettleIsSale(t: Tables, fees: FeeSchedule, symbol: string, price: real, size: int, now: int)
    requires Sane(t) && symbol in t.positions
    ensures var q := t.positions[symbol].quantity;
            AfterSettle(t, fees, symbol, price, size, now)
            == Sold(t, symbol, q, price, fees.SellCost(Money(price, q, size)), fees.RatesKnown(), now, size)
  {}

  // ---- Runs ---------------------------------------------------------------------------------------

  /** One thing that can happen to the account; a broker with other fees may act at any time. */
  datatype Event =
    | Order(fees: FeeSchedule, request: OrderRequest, market: Market)
    | Settle(fees: FeeSchedule, symbol: string, price: Option<real>, market: Market, today: int, now: int)
    | Reset
    | Reopen(fees: FeeSchedule, balance: real)
    | RaisedMidway

  function After(t: Tables, e: Event): Tables
    requires Sane(t)
  {
    match e
    case Order(fees, request, market) => AfterOrder(t, fees, request, market)
    case Settle(fees, symbol, price, market, today, now) =>
      if SettleCheck(t, symbol, price, market, today).Some? then t
      else AfterSettle(t, fees, symbol, price.value, market.contract.value.contractSize, now)
    case Reset => NewAccount(t.account.value.initialBalance)
    case Reopen(_, _) => t
    case RaisedMidway => t
  }

  ghost function AuditAfter(t: Tables, e: Event, a: Audit): Audit
    requires Sane(t)
  {
    match e
    case Order(fees, r, m) =>
      var d := Decide(t, fees, r, m);
      if d.Refuse? then a
      else
        DecideFacts(t, fees, r, m);
        if r.side.value.Buy? then AuditAfterBuy(a, r.symbol, Money(d.average, d.filled, d.size), d.fee)
        else AuditAfterSale(a, r.symbol, t.positions[r.symbol], d.filled, d.fee, d.size)
    case Settle(fees, symbol, price, market, today, _) =>
      if SettleCheck(t, symbol, price, market, today).Some? then a
      else
        var p, size := t.positions[symbol], market.contract.value.contractSize;
        AuditAfterSale(a, symbol, p, p.quantity, fees.SellCost(Money(price.value, p.quantity, size)), size)
    case Reset => NO_AUDIT
    case Reopen(_, _) => a
    case RaisedMidway => a
  }

  lemma LogKeepsLedger(t: Tables, a: Audit, id: string, row: OrderRow)
    requires Ledger(t, a)
    ensures Ledger(t.WithOrder(id, row), a)
  {}

  lemma NewAccountLedger(balance: real)
    ensures Ledger(NewAccount(balance), NO_AUDIT)
  {
    assert FeeMap(map[]) == map[];
  }

  lemma ResetKeepsLedger(t: Tables, a: Audit)
    requires Sane(t)
    ensures Ledger(After(t, Reset), AuditAfter(t, Reset, a))
  {
    var balance := t.account.value.initialBalance;
    assert After(t, Reset) == NewAccount(balance) && AuditAfter(t, Reset, a) == NO_AUDIT;
    NewAccountLedger(balance);
  }

  lemma OrderKeepsLedger(t: Tables, fees: FeeSchedule, r: OrderRequest, m: Market, a: Audit)
    requires Ledger(t, a)
    ensures Ledger(AfterOrder(t, fees, r, m), AuditAfter(t, Order(fees, r, m), a))
  {
    var d := Decide(t, fees, r, m);
    if d.Refuse? {
      LogKeepsLedger(t, a, r.orderId, RefusalRow(r));
    } else {
      DecideFacts(t, fees, r, m);
      var known, a' := fees.RatesKnown(), AuditAfter(t, Order(fees, r, m), a);
      if r.side.value.Buy? {
        BuyKeepsLedger(t, r.symbol, d.filled, d.average, d.fee, known, r.now, d.size, a);
        LogKeepsLedger(Bought(t, r.symbol, d.filled, d.average, d.fee, known, r.now, d.size), a', r.orderId,
          FillRow(r, d));
      } else {
        if !known {
          UnknownRatesCostNothing(fees, Money(d.average, d.filled, d.size));
        }
        SellKeepsLedger(t, r.symbol, d.filled, d.average, d.fee, known, r.now, d.size, a);
        LogKeepsLedger(Sold(t, r.symbol, d.filled, d.average, d.fee, known, r.now, d.size), a', r.orderId,
          FillRow(r, d));
      }
    }
  }

  lemma WholeSaleKeepsLedger(
    t: Tables, fees: FeeSchedule, symbol: string, price: real, now: int, size: int, a: Audit, fee: real)
    requires Ledger(t, a) && symbol in t.positions
    requires fee == fees.SellCost(Money(price, t.positions[symbol].quantity, size))
    ensures Ledger(AfterSettle(t, fees, symbol, price, size, now),
                   AuditAfterSale(a, symbol, t.positions[symbol], t.positions[symbol].quantity, fee, size))
  {
    var q := t.positions[symbol].quantity;
    if !fees.RatesKnown() {
      UnknownRatesCostNothing(fees, Money(price, q, size));
    }
    SettleIsSale(t, fees, symbol, price, size, now);
    SellKeepsLedger(t, symbol, q, price, fee, fees.RatesKnown(), now, size, a);
  }

  lemma SettleKeepsLedger(
    t: Tables, fees: FeeSchedule, symbol: string, price: Option<real>, m: Market, today: int, now: int, a: Audit)
    requires Ledger(t, a)
    ensures var e := Settle(fees, symbol, price, m, today, now); Ledger(After(t, e), AuditAfter(t, e, a))
  {
    if SettleCheck(t, symbol, price, m, today).None? {
      var size := m.contract.value.contractSize;
      var fee := fees.SellCost(Money(price.value, t.positions[symbol].quantity, size));
      WholeSaleKeepsLedger(t, fees, symbol, price.value, now, size, a, fee);
    }
  }

  lemma EventKeepsLedger(t: Tables, e: Event, a: Audit)
    requires Ledger(t, a)
    ensures Ledger(After(t, e), AuditAfter(t, e, a))
  {
    match e
    case Order(fees, r, m) => OrderKeepsLedger(t, fees, r, m, a);
    case Settle(fees, symbol, price, m, today, now) => SettleKeepsLedger(t, fees, symbol, price, m, today, now, a);
    case Reset => ResetKeepsLedger(t, a);
    case Reopen(_, _) =>
    case RaisedMidway =>
  }

  lemma AfterKeepsSane(t: Tables, e: Event)
    requires Sane(t)
    ensures Sane(After(t, e))
  {
    match e
    case Order(fees, r, m) =>
      if Decide(t, fees, r, m).Fill? {
        DecideFacts(t, fees, r, m);
      }
    case _ =>
  }

  /** The tables after a whole run, and the audit of the fees paid since its last reset. */
  ghost function Run(t: Tables, events: seq<Event>): (r: Tables)
    requires Sane(t)
    ensures Sane(r)
  {
    if events == [] then t
    else
      var before := Run(t, events[..|events| - 1]);
      AfterKeepsSane(before, events[|events| - 1]);
      After(before, events[|events| - 1])
  }

  ghost function AuditRun(t: Tables, events: seq<Event>, a: Audit): Audit
    requires Sane(t)
  {
    if events == [] then a
    else
      AuditAfter(Run(t, events[..|events| - 1]), events[|events| - 1], AuditRun(t, events[..|events| - 1], a))
  }

  /** Whatever fees, prices and contract sizes the events come with. */
  lemma {:induction false} RunKeepsLedger(t: Tables, events: seq<Event>, a: Audit)
    requires Ledger(t, a)
    ensures Ledger(Run(t, events), AuditRun(t, events, a))
  {
    if events != [] {
      var front := events[..|events| - 1];
      RunKeepsLedger(t, front, a);
      EventKeepsLedger(Run(t, front), events[|events| - 1], AuditRun(t, front, a));
    }
  }

  // ---- Contract sizes that never change --------------------------------------------------------

  ghost function CostMap(positions: map<string, Position>, sizeOf: string -> int): map<string, real> {
    map s | s in positions :: Money(positions[s].averagePrice, positions[s].quantity, sizeOf(s))
  }

  /** Every contract the event quotes has the size its symbol always had. */
  ghost predicate SizesAgree(e: Event, sizeOf: string -> int) {
    match e
    case Order(_, r, m) => m.contract.Some? ==> m.contract.value.contractSize == sizeOf(r.symbol)
    case Settle(_, symbol, _, m, _, _) => m.contract.Some? ==> m.contract.value.contractSize == sizeOf(symbol)
    case _ => true
  }

  ghost predicate AllAgree(events: seq<Event>, sizeOf: string -> int) {
    forall i :: 0 <= i < |events| ==> SizesAgree(events[i], sizeOf)
  }

  /** What is open was bought at these sizes. */
  ghost predicate SpentAt(positions: map<string, Position>, spent: map<string, real>, sizeOf: string -> int) {
    spent == CostMap(positions, sizeOf)
  }

  lemma MoneyPerContract(price: real, quantity: int, size: int)
    ensures Money(price, quantity, size) == Worth(quantity, Worth(size, price))
  {
    MoneyIsProduct(price, quantity, size);
    WorthIsProduct(size, price);
    WorthIsProduct(quantity, Worth(size, price));
    Reorder(price, quantity as real, size as real);
    Reorder(size as real, price, quantity as real);
  }

  /** The share of the money spent is what the contracts that leave have cost. */
  lemma ShareOfMoney(price: real, quantity: int, filled: int, size: int, spent: real)
    requires 0 < filled <= quantity && spent == Money(price, quantity, size)
    ensures AllocateEntryFee(spent, filled, quantity) == Money(price, filled, size)
    ensures spent - AllocateEntryFee(spent, filled, quantity) == Money(price, quantity - filled, size)
  {
    MoneyPerContract(price, quantity, size);
    MoneyPerContract(price, filled, size);
    AllocationIsWorth(spent, filled, quantity, Worth(size, price));
    MoneyAdds(price, filled, quantity - filled, size);
  }

  lemma BuySpends(
    t: Tables, symbol: string, filled: int, average: real, fee: real, known: bool, now: int, a: Audit,
    sizeOf: string -> int)
    requires Sane(t) && filled > 0 && SpentAt(t.positions, a.spent, sizeOf)
    ensures SpentAt(t.positions[symbol := Enlarged(t, symbol, filled, average, fee, known, now)],
              AuditAfterBuy(a, symbol, Money(average, filled, sizeOf(symbol)), fee).spent, sizeOf)
  {
    var next, size := Enlarged(t, symbol, filled, average, fee, known, now), sizeOf(symbol);
    if symbol in t.positions {
      var p := t.positions[symbol];
      MoneyOfAverage(p.quantity, p.averagePrice, filled, average, size);
    }
    assert Money(next.averagePrice, next.quantity, size)
        == ValueAt(a.spent, symbol) + Money(average, filled, size);
  }

  /** A sale slips by what today's size books as its cost beyond what the contracts have cost. */
  lemma SaleSpends(
    t: Tables, symbol: string, filled: int, fee: real, a: Audit, sizeOf: string -> int, size: int, left: Position)
    requires Sane(t) && symbol in t.positions && 0 < filled <= t.positions[symbol].quantity
    requires SpentAt(t.positions, a.spent, sizeOf)
    requires left == t.positions[symbol].(
               quantity := t.positions[symbol].quantity - filled, entryFees := left.entryFees)
    ensures var p, b := t.positions[symbol], AuditAfterSale(a, symbol, t.positions[symbol], filled, fee, size);
            && SpentAt(t.WithPosition(symbol, left).positions, b.spent, sizeOf)
            && b.slip == a.slip + Money(p.averagePrice, filled, size) - Money(p.averagePrice, filled, sizeOf(symbol))
  {
    var p := t.positions[symbol];
    ShareOfMoney(p.averagePrice, p.quantity, filled, sizeOf(symbol), a.spent[symbol]);
  }

  /** Nothing slips while every contract keeps its size, and the money spent is the open cost. */
  ghost predicate AtTheirSizes(t: Tables, a: Audit, sizeOf: string -> int) {
    Sane(t) && SpentAt(t.positions, a.spent, sizeOf) && a.slip == 0.0
  }

  lemma SaleKeepsSizes(
    t: Tables, symbol: string, filled: int, exit: real, fee: real, known: bool, now: int, sizeOf: string -> int,
    a: Audit)
    requires AtTheirSizes(t, a, sizeOf) && symbol in t.positions && 0 < filled <= t.positions[symbol].quantity
    ensures AtTheirSizes(Sold(t, symbol, filled, exit, fee, known, now, sizeOf(symbol)),
              AuditAfterSale(a, symbol, t.positions[symbol], filled, fee, sizeOf(symbol)), sizeOf)
  {
    var p, size := t.positions[symbol], sizeOf(symbol);
    var share := AllocateEntryFee(p.entryFees, filled, p.quantity);
    var left := p.(quantity := p.quantity - filled, entryFees := p.entryFees - share);
    SaleBalances(
      t, symbol, filled, exit, fee, known, now, size, share, left,
      CloseRecord(
        symbol, filled, p.averagePrice, exit, If(p.entryFeesKnown, share), If(known, fee), size, p.openedAt, now));
    SaleSpends(t, symbol, filled, fee, a, sizeOf, size, left);
  }

  lemma OrderKeepsSizes(t: Tables, fees: FeeSchedule, r: OrderRequest, m: Market, a: Audit, sizeOf: string -> int)
    requires AtTheirSizes(t, a, sizeOf) && SizesAgree(Order(fees, r, m), sizeOf)
    ensures AtTheirSizes(AfterOrder(t, fees, r, m), AuditAfter(t, Order(fees, r, m), a), sizeOf)
  {
    var d := Decide(t, fees, r, m);
    if d.Fill? {
      DecideFacts(t, fees, r, m);
      if r.side.value.Buy? {
        BuySpends(t, r.symbol, d.filled, d.average, d.fee, fees.RatesKnown(), r.now, a, sizeOf);
        BuyBalances(
          t, r.symbol, d.filled, d.average, d.fee, fees.RatesKnown(), r.now, d.size,
          Money(d.average, d.filled, d.size));
      } else {
        SaleKeepsSizes(t, r.symbol, d.filled, d.average, d.fee, fees.RatesKnown(), r.now, sizeOf, a);
      }
    }
  }

  lemma SettleKeepsSizes(
    t: Tables, fees: FeeSchedule, symbol: string, price: Option<real>, m: Market, today: int, now: int, a: Audit,
    sizeOf: string -> int)
    requires AtTheirSizes(t, a, sizeOf) && SizesAgree(Settle(fees, symbol, price, m, today, now), sizeOf)
    ensures var e := Settle(fees, symbol, price, m, today, now);
            AtTheirSizes(After(t, e), AuditAfter(t, e, a), sizeOf)
  {
    if SettleCheck(t, symbol, price, m, today).None? {
      var q, size := t.positions[symbol].quantity, sizeOf(symbol);
      var fee := fees.SellCost(Money(price.value, q, size));
      SettleIsSale(t, fees, symbol, price.value, size, now);
      SaleKeepsSizes(t, symbol, q, price.value, fee, fees.RatesKnown(), now, sizeOf, a);
    }
  }

  lemma NewAccountSizes(balance: real, sizeOf: string -> int)
    ensures AtTheirSizes(NewAccount(balance), NO_AUDIT, sizeOf)
  {
    assert CostMap(map[], sizeOf) == map[];
  }

  lemma EventKeepsSizes(t: Tables, e: Event, a: Audit, sizeOf: string -> int)
    requires AtTheirSizes(t, a, sizeOf) && SizesAgree(e, sizeOf)
    ensures AtTheirSizes(After(t, e), AuditAfter(t, e, a), sizeOf)
  {
    match e
    case Order(fees, r, m) => OrderKeepsSizes(t, fees, r, m, a, sizeOf);
    case Settle(fees, symbol, price, m, today, now) =>
      SettleKeepsSizes(t, fees, symbol, price, m, today, now, a, sizeOf);
    case Reset => NewAccountSizes(t.account.value.initialBalance, sizeOf);
    case Reopen(_, _) =>
    case RaisedMidway =>
  }

  lemma {:induction false} RunKeepsSizes(t: Tables, events: seq<Event>, a: Audit, sizeOf: string -> int)
    requires AtTheirSizes(t, a, sizeOf) && AllAgree(events, sizeOf)
    ensures AtTheirSizes(Run(t, events), AuditRun(t, events, a), sizeOf)
  {
    if events != [] {
      var front := events[..|events| - 1];
      RunKeepsSizes(t, front, a, sizeOf);
      EventKeepsSizes(Run(t, front), events[|events| - 1], AuditRun(t, front, a), sizeOf);
    }
  }
}
