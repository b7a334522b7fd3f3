/**
 * What a filled order and a settlement do to the account, said of the book and the old tables,
 * and what the recorded results of closed trades add up to.
 */
module PaperEffects {
  import opened Common
  import opened Fees
  import opened PaperAccount
  import opened PaperTradingStores
  import opened PaperBrokers
  import opened PaperLedger
  import PaperReconciliation
  import OB = OrderBooks
  import Drawdowns

  // ---- One order, one settlement ---------------------------------------------------------------

  /** Rates that are declared, or not all zero, count as known. */
  predicate Charges(fees: FeeSchedule) {
    || fees.declared || fees.buyRate != 0.0 || fees.sellRate != 0.0 || fees.sellTaxRate != 0.0
    || fees.perOrder != 0.0
  }

  /** Cash and the position of the symbol move; the rest of the account stays. */
  ghost predicate OnlyMoves(t: Tables, after: Tables, symbol: string, cash: real) {
    && t.account.Some? && after.positions - {symbol} == t.positions - {symbol}
    && after.account == Some(Account(t.account.value.cash + cash, t.account.value.initialBalance))
  }

  /** `filled` contracts came in for `paid` per share of the contract. */
  ghost predicate Purchased(
    t: Tables, after: Tables, symbol: string, filled: int, paid: real, size: int, fee: real, known: bool, now: int) {
    && OnlyMoves(t, after, symbol, -Worth(size, paid) - fee) && after.trades == t.trades && symbol in after.positions
    && var next := after.positions[symbol];
       if symbol in t.positions then
         var p := t.positions[symbol];
         && next.quantity == p.quantity + filled && next.openedAt == p.openedAt
         && Worth(next.quantity, next.averagePrice) == Worth(p.quantity, p.averagePrice) + paid
         && next.entryFees == p.entryFees + fee && (next.entryFeesKnown <==> p.entryFeesKnown && known)
       else
         && next.quantity == filled && next.openedAt == now && Worth(filled, next.averagePrice) == paid
         && next.entryFees == fee && (next.entryFeesKnown <==> known)
  }

  /** The trade closes `filled` contracts of `p` for `got` per share; costs that are not known are left out. */
  ghost predicate Closing(
    trade: Trade, p: Position, symbol: string, filled: int, got: real, size: int, fee: real, known: bool, now: int) {
    && trade.symbol == symbol && trade.quantity == filled && trade.contractSize == size
    && trade.openedAt == p.openedAt && trade.closedAt == now
    && trade.entryPrice == p.averagePrice && Worth(filled, trade.exitPrice) == got
    && trade.grossPnl == Worth(size, got) - Worth(size, Worth(filled, p.averagePrice))
    && trade.exitFee == (if known then Some(fee) else None) && (trade.entryFee.Some? <==> p.entryFeesKnown)
    && trade.pnlAbsolute == trade.grossPnl - Known(trade.entryFee) - Known(trade.exitFee)
  }

  /** What is left of `p` keeps price, time and the entry fees of its own contracts. */
  ghost predicate Leaves(p: Position, left: Position, filled: int) {
    && left == p.(quantity := p.quantity - filled, entryFees := left.entryFees)
    && Worth(p.quantity, left.entryFees) == Worth(p.quantity - filled, p.entryFees)
  }

  /** `filled` contracts went out for `got` per share, and one closed trade tells of them. */
  ghost predicate SoldFor(
    t: Tables, after: Tables, symbol: string, filled: int, got: real, size: int, fee: real, known: bool, now: int) {
    && OnlyMoves(t, after, symbol, Worth(size, got) - fee) && symbol in t.positions && after.trades != []
    && var p, trade := t.positions[symbol], after.trades[|after.trades| - 1];
       && after.trades == t.trades + [trade] && Closing(trade, p, symbol, filled, got, size, fee, known, now)
       && (symbol in after.positions <==> filled < p.quantity)
       && (symbol in after.positions ==>
             && Leaves(p, after.positions[symbol], filled)
             && (trade.entryFee.Some? ==> trade.entryFee.value == p.entryFees - after.positions[symbol].entryFees))
       && (symbol !in after.positions && trade.entryFee.Some? ==> trade.entryFee.value == p.entryFees)
  }

  lemma PurchaseMoves(
    t: Tables, symbol: string, filled: int, average: real, fee: real, known: bool, now: int, size: int, paid: real)
    requires Sane(t) && filled > 0 && paid == Worth(filled, average)
    ensures Purchased(
              t, Bought(t, symbol, filled, average, fee, known, now, size), symbol, filled, paid, size, fee, known, now)
  {
    if symbol in t.positions {
      AverageTimesQuantity(t.positions[symbol].quantity, t.positions[symbol].averagePrice, filled, average);
    }
    BuyBalances(t, symbol, filled, average, fee, known, now, size, Money(average, filled, size));
  }

  lemma RestOfShare(total: real, c: real, h: real, share: real)
    requires h > 0.0 && share == total * c / h
    ensures h * (total - share) == (h - c) * total
  {
    MultiplyBack(total * c, h);
    assert h * share == total * c;
  }

  lemma RestIsProportional(total: real, closing: int, held: int, share: real, left: real, c: real, h: real)
    requires 0 < closing < held && c == closing as real && h == held as real
    requires share == total * c / h && left == total - share
    ensures Worth(held, left) == Worth(held - closing, total)
  {
    RestOfShare(total, c, h, share);
    WorthIsProduct(held, left);
    WorthIsProduct(held - closing, total);
  }

  lemma FeesLeft(p: Position, filled: int, share: real, left: Position)
    requires 0 < filled < p.quantity && share == AllocateEntryFee(p.entryFees, filled, p.quantity)
    requires left == p.(quantity := p.quantity - filled, entryFees := p.entryFees - share)
    ensures Leaves(p, left, filled)
  {
    RestIsProportional(
      p.entryFees, filled, p.quantity, share, left.entryFees, filled as real, p.quantity as real);
  }

  lemma RecordCloses(
    p: Position, symbol: string, filled: int, exit: real, share: real, fee: real, known: bool, now: int, size: int,
    got: real, trade: Trade)
    requires got == Worth(filled, exit)
    requires trade == CloseRecord(
               symbol, filled, p.averagePrice, exit, If(p.entryFeesKnown, share), If(known, fee), size, p.openedAt, now)
    ensures Closing(trade, p, symbol, filled, got, size, fee, known, now)
  {
    MoneyDiffers(exit, p.averagePrice, filled, size);
    assert Money(exit, filled, size) == Worth(size, got);
    assert Money(p.averagePrice, filled, size) == Worth(size, Worth(filled, p.averagePrice));
  }

  /** The fields of the tables after a sale make it a sale. */
  lemma SoldByFields(
    t: Tables, after: Tables, symbol: string, filled: int, got: real, fee: real, known: bool, now: int, size: int,
    share: real, left: Position, trade: Trade)
    requires Sane(t) && symbol in t.positions && 0 < filled <= t.positions[symbol].quantity
    requires var p := t.positions[symbol];
             && left == p.(quantity := p.quantity - filled, entryFees := p.entryFees - share)
             && (filled == p.quantity ==> share == p.entryFees) && (filled < p.quantity ==> Leaves(p, left, filled))
             && Closing(trade, p, symbol, filled, got, size, fee, known, now)
             && trade.entryFee == If(p.entryFeesKnown, share)
    requires after.positions == t.WithPosition(symbol, left).positions && after.trades == t.trades + [trade]
    requires after.account
          == Some(Account(t.account.value.cash + Worth(size, got) - fee, t.account.value.initialBalance))
    ensures SoldFor(t, after, symbol, filled, got, size, fee, known, now)
  {}

  lemma SaleMoves(
    t: Tables, symbol: string, filled: int, exit: real, fee: real, known: bool, now: int, size: int, got: real)
    requires Sane(t) && symbol in t.positions && 0 < filled <= t.positions[symbol].quantity
    requires got == Worth(filled, exit)
    ensures SoldFor(
              t, Sold(t, symbol, filled, exit, fee, known, now, size), symbol, filled, got, size, fee, known, now)
  {
    var p := t.positions[symbol];
    var share := AllocateEntryFee(p.entryFees, filled, p.quantity);
    var left := p.(quantity := p.quantity - filled, entryFees := p.entryFees - share);
    var trade := CloseRecord(
      symbol, filled, p.averagePrice, exit, If(p.entryFeesKnown, share), If(known, fee), size, p.openedAt, now);
    SaleBalances(t, symbol, filled, exit, fee, known, now, size, share, left, trade);
    RecordCloses(p, symbol, filled, exit, share, fee, known, now, size, got, trade);
    if filled < p.quantity {
      FeesLeft(p, filled, share, left);
    }
    SoldByFields(
      t, Sold(t, symbol, filled, exit, fee, known, now, size), symbol, filled, got, fee, known, now, size, share, left,
      trade);
  }

  /** What the order does when nothing blocks it: a purchase for the asks it eats, a sale for the bids. */
  lemma FilledOrderMoves(
    t: Tables, fees: FeeSchedule, r: OrderRequest, book: OB.OrderBook, c: Contract, side: OB.Side, filled: int,
    money: real, fee: real)
    requires Sane(t) && NothingBlocks(t, fees, r, Market(Some(c), Some(book))) && r.side == Some(side)
    requires filled == MinInt(r.quantity, OB.RealDepth(Eaten(book, side)))
    requires money == OB.Cost(Eaten(book, side), r.quantity) && fee == FeeOf(fees, side, Worth(c.contractSize, money))
    ensures var after := AfterOrder(t, fees, r, Market(Some(c), Some(book)));
            && (side.Buy? ==> Purchased(t, after, r.symbol, filled, money, c.contractSize, fee, Charges(fees), r.now))
            && (side.Sell? ==> SoldFor(t, after, r.symbol, filled, money, c.contractSize, fee, Charges(fees), r.now))
  {
    var m := Market(Some(c), Some(book));
    var d := Decide(t, fees, r, m);
    AnswerIsJustified(t, fees, r, m);
    FilledIffNothingBlocks(t, fees, r, m, BadSide);
    DecideFacts(t, fees, r, m);
    FilledSideMoves(t, fees, r, m, side, d, money);
  }

  lemma FilledSideMoves(
    t: Tables, fees: FeeSchedule, r: OrderRequest, m: Market, side: OB.Side, d: Decision, money: real)
    requires Sane(t) && d == Decide(t, fees, r, m) && d.Fill? && d.filled > 0 && r.side == Some(side)
    requires side.Sell? ==> r.symbol in t.positions && d.filled <= t.positions[r.symbol].quantity
    requires money == Worth(d.filled, d.average)
    ensures var after := AfterOrder(t, fees, r, m);
            && (side.Buy? ==> Purchased(t, after, r.symbol, d.filled, money, d.size, d.fee, Charges(fees), r.now))
            && (side.Sell? ==> SoldFor(t, after, r.symbol, d.filled, money, d.size, d.fee, Charges(fees), r.now))
  {
    if side.Buy? {
      PurchaseMoves(t, r.symbol, d.filled, d.average, d.fee, fees.RatesKnown(), r.now, d.size, money);
    } else {
      SaleMoves(t, r.symbol, d.filled, d.average, d.fee, fees.RatesKnown(), r.now, d.size, money);
    }
  }

  /** What the order log says: a row of zeros for a refusal, the fill at its average for a fill. */
  lemma OrderIsLogged(t: Tables, fees: FeeSchedule, r: OrderRequest, m: Market, row: OrderRow)
    requires Sane(t) && row == AfterOrder(t, fees, r, m).orders[r.orderId]
    ensures AfterOrder(t, fees, r, m).orders == t.orders[r.orderId := row]
    ensures row.symbol == r.symbol && row.quantity == r.quantity
    ensures !NothingBlocks(t, fees, r, m) ==>
              row.status.Rejected? && row.filledQuantity == 0 && row.averageFillPrice == 0.0 && row.feePaid == 0.0
    ensures NothingBlocks(t, fees, r, m) ==> Justified(
              Executed(row.status, row.filledQuantity, row.averageFillPrice, row.feePaid), t, fees, r, m)
  {
    AnswerIsJustified(t, fees, r, m);
    FilledIffNothingBlocks(t, fees, r, m, BadSide);
  }

  lemma FeeOfSale(fees: FeeSchedule, money: real)
    ensures FeeOf(fees, OB.Sell, money) == fees.SellCost(money) && (Charges(fees) <==> fees.RatesKnown())
  {}

  /** A settlement is a sale of all of it at the given price. */
  lemma SettlementMoves(
    t: Tables, fees: FeeSchedule, symbol: string, price: real, size: int, now: int, q: int, money: real, fee: real)
    requires Sane(t) && symbol in t.positions && q == t.positions[symbol].quantity
    requires money == Worth(q, price) && fee == FeeOf(fees, OB.Sell, Worth(size, money))
    ensures SoldFor(
              t, AfterSettle(t, fees, symbol, price, size, now), symbol, q, money, size, fee, Charges(fees), now)
  {
    FeeOfSale(fees, Worth(size, money));
    WholeSaleMoves(t, fees, symbol, price, size, now, q, money, fee, Charges(fees));
  }

  lemma WholeSaleMoves(
    t: Tables, fees: FeeSchedule, symbol: string, price: real, size: int, now: int, q: int, money: real, fee: real,
    known: bool)
    requires Sane(t) && symbol in t.positions && q == t.positions[symbol].quantity && money == Worth(q, price)
    requires fee == fees.SellCost(Worth(size, money)) && known == fees.RatesKnown()
    ensures SoldFor(
              t, AfterSettle(t, fees, symbol, price, size, now), symbol, q, money, size, fee, known, now)
  {
    SettleIsSale(t, fees, symbol, price, size, now);
    SaleMoves(t, symbol, q, price, fee, known, now, size, money);
  }

  // ---- The results of closed trades -----------------------------------------------------------

  /** The recorded result of every trade is its gross profit less what is known of its costs. */
  ghost predicate NetTrades(trades: seq<Trade>) {
    forall i :: 0 <= i < |trades| ==>
      trades[i].pnlAbsolute == trades[i].grossPnl - Known(trades[i].entryFee) - Known(trades[i].exitFee)
  }

  lemma {:induction false} ResultsAreNet(trades: seq<Trade>)
    requires NetTrades(trades)
    ensures Sum(Drawdowns.Results(trades)) == Summary(trades).gross - Summary(trades).Costs()
  {
    if trades != [] {
      var front := trades[..|trades| - 1];
      ResultsAreNet(front);
      assert Drawdowns.Results(trades)[..|trades| - 1] == Drawdowns.Results(front);
    }
  }

  lemma SoldKeepsNet(
    t: Tables, after: Tables, symbol: string, filled: int, got: real, size: int, fee: real, known: bool, now: int)
    requires NetTrades(t.trades) && SoldFor(t, after, symbol, filled, got, size, fee, known, now)
    ensures NetTrades(after.trades)
  {}

  lemma EventKeepsNet(t: Tables, e: Event)
    requires Sane(t) && NetTrades(t.trades)
    ensures NetTrades(After(t, e).trades)
  {
    match e
    case Order(fees, r, m) =>
      var d := Decide(t, fees, r, m);
      if d.Fill? {
        DecideFacts(t, fees, r, m);
        if r.side.value.Sell? {
          var after := Sold(t, r.symbol, d.filled, d.average, d.fee, fees.RatesKnown(), r.now, d.size);
          var got := Worth(d.filled, d.average);
          SaleMoves(t, r.symbol, d.filled, d.average, d.fee, fees.RatesKnown(), r.now, d.size, got);
          SoldKeepsNet(t, after, r.symbol, d.filled, got, d.size, d.fee, fees.RatesKnown(), r.now);
        }
      }
    case Settle(fees, symbol, price, m, today, now) =>
      if SettleCheck(t, symbol, price, m, today).None? {
        var q, size := t.positions[symbol].quantity, m.contract.value.contractSize;
        var money := Worth(q, price.value);
        var fee := FeeOf(fees, OB.Sell, Worth(size, money));
        SettlementMoves(t, fees, symbol, price.value, size, now, q, money, fee);
        SoldKeepsNet(
          t, AfterSettle(t, fees, symbol, price.value, size, now), symbol, q, money, size, fee, Charges(fees), now);
      }
    case _ =>
  }

  lemma {:induction false} RunKeepsNet(t: Tables, events: seq<Event>)
    requires Sane(t) && NetTrades(t.trades)
    ensures NetTrades(Run(t, events).trades)
  {
    if events != [] {
      var front := events[..|events| - 1];
      RunKeepsNet(t, front);
      EventKeepsNet(Run(t, front), events[|events| - 1]);
    }
  }

  lemma LedgerOfResults(t: Tables, a: Audit)
    requires Ledger(t, a) && NetTrades(t.trades)
    ensures t.account.value.cash + SumMap(a.spent) + SumMap(FeeMap(t.positions)) + a.hidden
         == t.account.value.initialBalance + Sum(Drawdowns.Results(t.trades)) + a.slip
  {
    ResultsAreNet(t.trades);
  }

  lemma NothingIsNothing(m: map<string, real>)
    requires m.Keys == {}
    ensures SumMap(m) == 0.0
  {
    assert m == map[];
  }

  /**
   * Over every run at fixed contract sizes: with nothing open and every entry cost known, cash is
   * the opening balance plus the recorded results of all closed trades.
   */
  lemma FlatCashIsResults(balance: real, events: seq<Event>, sizeOf: string -> int)
    requires AllAgree(events, sizeOf) && Run(NewAccount(balance), events).positions == map[]
    requires Summary(Run(NewAccount(balance), events).trades).missingEntry == 0
    ensures var t := Run(NewAccount(balance), events);
            t.account.value.cash == t.account.value.initialBalance + Sum(Drawdowns.Results(t.trades))
  {
    PaperReconciliation.RunAtSizes(balance, events, sizeOf);
    RunKeepsNet(NewAccount(balance), events);
    FlatLedger(Run(NewAccount(balance), events), AuditRun(NewAccount(balance), events, NO_AUDIT), sizeOf);
  }

  lemma FlatLedger(t: Tables, a: Audit, sizeOf: string -> int)
    requires Ledger(t, a) && AtTheirSizes(t, a, sizeOf) && NetTrades(t.trades)
    requires t.positions == map[] && Summary(t.trades).missingEntry == 0
    ensures t.account.value.cash == t.account.value.initialBalance + Sum(Drawdowns.Results(t.trades))
  {
    LedgerOfResults(t, a);
    NothingIsNothing(a.spent);
    NothingIsNothing(FeeMap(t.positions));
  }
}
