/**
 * The paper broker (execution/paper_broker.py): immediate orders against real depth, settlement
 * of expired positions, reset. The methods are proved against functions on the tables.
 */
module PaperBrokers {
  import opened Common
  import opened Fees
  import opened PaperAccount
  import opened PaperTradingStores
  import OB = OrderBooks

  datatype Contract = Contract(insCode: string, contractSize: int, expiry: int)

  /** What the outside world answers for one symbol at the moment of the call. */
  datatype Market = Market(contract: Option<Contract>, book: Option<OB.OrderBook>)

  /** `side` is None when the lower-cased text is neither "buy" nor "sell". */
  datatype OrderRequest = OrderRequest(
    orderId: string, symbol: string, side: Option<OB.Side>, quantity: int, today: int, now: int)

  datatype Refusal =
    | BadQuantity | BadSide | NotEnoughHeld | UnknownContract | Expired | NoBook | TooThin | NotAffordable

  datatype Decision = Refuse(reason: Refusal) | Fill(average: real, filled: int, fee: real, size: int)

  datatype OrderOutcome =
    | Refused(reason: Refusal)
    | Executed(status: OrderStatus, filled: int, average: real, fee: real)
    | Raised

  datatype SettleError = NothingOpen | PriceNotFinite | NegativePrice | NoContract | NotExpired

  datatype SettleOutcome = Invalid(error: SettleError) | Settled(trade: Trade) | SettleRaised

  // ---- What an order does to the tables -----------------------------------------------------

  function Held(t: Tables, symbol: string): int {
    if symbol in t.positions then t.positions[symbol].quantity else 0
  }

  /** The checks in order; everything that can be refused is refused before any write. */
  function Decide(t: Tables, fees: FeeSchedule, r: OrderRequest, m: Market): Decision
    requires t.account.Some?
  {
    if r.quantity <= 0 then Refuse(BadQuantity)
    else if r.side.None? then Refuse(BadSide)
    else if r.side.value.Sell? && Held(t, r.symbol) < r.quantity then Refuse(NotEnoughHeld)
    else if m.contract.None? || m.contract.value.insCode == "" then Refuse(UnknownContract)
    else if m.contract.value.expiry < r.today then Refuse(Expired)
    else if m.book.None? then Refuse(NoBook)
    else Price(t, fees, r.side.value, m.contract.value.contractSize,
      OB.Quote(m.book.value.Levels(r.side.value), r.quantity))
  }

  function Price(t: Tables, fees: FeeSchedule, side: OB.Side, size: int, quote: (Option<real>, int)): Decision
    requires t.account.Some?
  {
    if quote.0.None? || quote.1 <= 0 then Refuse(TooThin)
    else
      var notional := Money(quote.0.value, quote.1, size);
      var fee := if side.Buy? then fees.EntryCost(notional, true) else fees.ExitCost(notional, true);
      if side.Buy? && !Affordable(notional + fee, t.account.value.cash) then Refuse(NotAffordable)
      else Fill(quote.0.value, quote.1, fee, size)
  }

  function WeightedAverage(q1: int, p1: real, q2: int, p2: real): real
    requires q1 + q2 != 0
  {
    (q1 as real * p1 + q2 as real * p2) / (q1 + q2) as real
  }

  /** The position after buying `filled` more at `average`. */
  function Enlarged(t: Tables, symbol: string, filled: int, average: real, fee: real, known: bool, now: int): Position
    requires symbol in t.positions ==> t.positions[symbol].quantity + filled != 0
  {
    if symbol !in t.positions then Position(filled, average, now, fee, known)
    else
      var p := t.positions[symbol];
      Position(
        p.quantity + filled, WeightedAverage(p.quantity, p.averagePrice, filled, average), p.openedAt,
        p.entryFees + fee, p.entryFeesKnown && known)
  }

  function Bought(
    t: Tables, symbol: string, filled: int, average: real, fee: real, known: bool, now: int, size: int): Tables
    requires t.account.Some?
    requires symbol in t.positions ==> t.positions[symbol].quantity + filled != 0
  {
    t.WithCash(t.account.value.cash - Money(average, filled, size) - fee)
     .WithPosition(symbol, Enlarged(t, symbol, filled, average, fee, known, now))
  }

  function CloseRecord(
    symbol: string, quantity: int, entryPrice: real, exitPrice: real, entryFee: Option<real>, exitFee: Option<real>,
    size: int, openedAt: int, closedAt: int): Trade
  {
    var gross := Money(exitPrice - entryPrice, quantity, size);
    Trade(symbol, quantity, entryPrice, exitPrice, size, gross, entryFee, exitFee,
          gross - (Known(entryFee) + Known(exitFee)), openedAt, closedAt)
  }

  function If(known: bool, fee: real): Option<real> { if known then Some(fee) else None }

  function Sold(
    t: Tables, symbol: string, filled: int, average: real, fee: real, known: bool, now: int, size: int): Tables
    requires t.account.Some? && symbol in t.positions
  {
    var p := t.positions[symbol];
    var share := AllocateEntryFee(p.entryFees, filled, p.quantity);
    t.WithCash(t.account.value.cash + Money(average, filled, size) - fee)
     .WithPosition(symbol, p.(quantity := p.quantity - filled, entryFees := p.entryFees - share))
     .WithTrade(CloseRecord(symbol, filled, p.averagePrice, average, If(p.entryFeesKnown, share), If(known, fee),
                            size, p.openedAt, now))
  }

  function RefusalRow(r: OrderRequest): OrderRow { OrderRow(r.symbol, r.quantity, 0, 0.0, Rejected, 0.0) }

  function FillRow(r: OrderRequest, d: Decision): OrderRow
    requires d.Fill?
  {
    OrderRow(r.symbol, r.quantity, d.filled, d.average, if d.filled == r.quantity then Filled else PartiallyFilled,
      d.fee)
  }

  /** Open positions hold a positive number of contracts and the account exists. */
  ghost predicate Sane(t: Tables) {
    t.account.Some? && forall s :: s in t.positions ==> t.positions[s].quantity > 0
  }

  lemma DecideFacts(t: Tables, fees: FeeSchedule, r: OrderRequest, m: Market)
    requires Sane(t) && Decide(t, fees, r, m).Fill?
    ensures var d := Decide(t, fees, r, m);
            && r.side.Some? && m.contract.Some? && m.book.Some? && d.size == m.contract.value.contractSize
            && 0 < d.filled <= r.quantity
            && (r.side.value.Sell? ==> r.symbol in t.positions && d.filled <= t.positions[r.symbol].quantity)
            && (r.side.value.Buy? ==>
                  && d.fee == fees.BuyCost(Money(d.average, d.filled, d.size))
                  && Affordable(Money(d.average, d.filled, d.size) + d.fee, t.account.value.cash))
            && (r.side.value.Sell? ==> d.fee == fees.SellCost(Money(d.average, d.filled, d.size)))
  {}

  function AfterOrder(t: Tables, fees: FeeSchedule, r: OrderRequest, m: Market): Tables
    requires Sane(t)
  {
    var d := Decide(t, fees, r, m);
    if d.Refuse? then t.WithOrder(r.orderId, RefusalRow(r))
    else
      DecideFacts(t, fees, r, m);
      var moved :=
        if r.side.value.Buy? then Bought(t, r.symbol, d.filled, d.average, d.fee, fees.RatesKnown(), r.now, d.size)
        else Sold(t, r.symbol, d.filled, d.average, d.fee, fees.RatesKnown(), r.now, d.size);
      moved.WithOrder(r.orderId, FillRow(r, d))
  }

  /** The statements of one order: cash, position, the closed trade of a sale, and the order log. */
  function OrderWrites(d: Decision, side: Option<OB.Side>): nat {
    if d.Refuse? then 1 else if side == Some(OB.Buy) then 3 else 4
  }

  function OutcomeOf(d: Decision, quantity: int): OrderOutcome {
    match d
    case Refuse(reason) => Refused(reason)
    case Fill(average, filled, fee, _) =>
      Executed(if filled == quantity then Filled else PartiallyFilled, filled, average, fee)
  }

  // ---- What the answer means -------------------------------------------------------------------

  /** A purchase eats the asks of the book, a sale the bids. */
  function Eaten(book: OB.OrderBook, side: OB.Side): seq<OB.BookLevel> { if side.Buy? then book.asks else book.bids }

  /** The fee of a purchase or a sale that moves this money. */
  function FeeOf(fees: FeeSchedule, side: OB.Side, money: real): real {
    Abs(money) * (if side.Buy? then fees.buyRate else fees.sellRate + fees.sellTaxRate) + fees.perOrder
  }

  /** What the order would move: eating the book front to back, for every share of every contract. */
  function MoneyMoved(book: OB.OrderBook, side: OB.Side, quantity: int, size: int): real {
    Worth(size, OB.Cost(Eaten(book, side), quantity))
  }

  /** What each reason says of the request, the account and the market, whatever else may be wrong. */
  predicate Blocks(reason: Refusal, t: Tables, fees: FeeSchedule, r: OrderRequest, m: Market) {
    match reason
    case BadQuantity => r.quantity < 1
    case BadSide => r.side.None?
    case NotEnoughHeld =>
      r.side == Some(OB.Sell) && !(r.symbol in t.positions && t.positions[r.symbol].quantity >= r.quantity)
    case UnknownContract => m.contract.None? || m.contract.value.insCode == ""
    case Expired => m.contract.Some? && m.contract.value.expiry < r.today
    case NoBook => m.book.None?
    case TooThin => m.book.Some? && r.side.Some? && OB.RealDepth(Eaten(m.book.value, r.side.value)) == 0
    case NotAffordable =>
      && r.side == Some(OB.Buy) && m.contract.Some? && m.book.Some? && t.account.Some?
      && var money := MoneyMoved(m.book.value, OB.Buy, r.quantity, m.contract.value.contractSize);
         money + FeeOf(fees, OB.Buy, money) > t.account.value.cash + 0.01
  }

  /** The order of the checks. */
  function Rank(reason: Refusal): nat {
    match reason
    case BadQuantity => 0
    case BadSide => 1
    case NotEnoughHeld => 2
    case UnknownContract => 3
    case Expired => 4
    case NoBook => 5
    case TooThin => 6
    case NotAffordable => 7
  }

  /** The reason applies and none before it does. */
  ghost predicate FirstBlock(reason: Refusal, t: Tables, fees: FeeSchedule, r: OrderRequest, m: Market) {
    Blocks(reason, t, fees, r, m) && forall x :: Rank(x) < Rank(reason) ==> !Blocks(x, t, fees, r, m)
  }

  ghost predicate NothingBlocks(t: Tables, fees: FeeSchedule, r: OrderRequest, m: Market) {
    forall x :: !Blocks(x, t, fees, r, m)
  }

  /** As much of the order as the book holds is filled, for the money it takes to eat that much. */
  ghost predicate FillsFrom(
    book: OB.OrderBook, side: OB.Side, quantity: int, size: int, fees: FeeSchedule, filled: int, average: real,
    fee: real) {
    && filled == MinInt(quantity, OB.RealDepth(Eaten(book, side))) >= 1
    && Worth(filled, average) == OB.Cost(Eaten(book, side), quantity)
    && fee == FeeOf(fees, side, Worth(size, Worth(filled, average)))
  }

  /** An order is filled exactly when nothing blocks it, and otherwise refused for the first reason. */
  ghost predicate Justified(outcome: OrderOutcome, t: Tables, fees: FeeSchedule, r: OrderRequest, m: Market) {
    match outcome
    case Refused(reason) => FirstBlock(reason, t, fees, r, m)
    case Executed(status, filled, average, fee) =>
      && NothingBlocks(t, fees, r, m) && r.side.Some? && m.contract.Some? && m.book.Some?
      && (status == if filled == r.quantity then Filled else PartiallyFilled)
      && FillsFrom(
        m.book.value, r.side.value, r.quantity, m.contract.value.contractSize, fees, filled, average, fee)
    case Raised => false
  }

  lemma QuoteEats(levels: seq<OB.BookLevel>, quantity: int)
    requires quantity >= 1
    ensures var (average, filled) := OB.Quote(levels, quantity);
            && filled == MinInt(quantity, OB.RealDepth(levels)) && (average.None? <==> OB.RealDepth(levels) == 0)
            && (average.Some? ==> Worth(filled, average.value) == OB.Cost(levels, quantity))
  {
    var (average, filled) := OB.Quote(levels, quantity);
    if average.Some? {
      OB.WorthOfAverage(OB.Cost(levels, quantity), filled, average.value);
    }
  }

  /** What the price check adds to the checks before it. */
  lemma PriceMeans(
    t: Tables, fees: FeeSchedule, side: OB.Side, size: int, levels: seq<OB.BookLevel>, quantity: int, money: real,
    fee: real)
    requires t.account.Some? && quantity >= 1
    requires money == Worth(size, OB.Cost(levels, quantity)) && fee == FeeOf(fees, side, money)
    ensures var d := Price(t, fees, side, size, OB.Quote(levels, quantity));
            && (d == Refuse(TooThin) <==> OB.RealDepth(levels) == 0)
            && (d == Refuse(NotAffordable)
                <==> OB.RealDepth(levels) > 0 && side.Buy? && money + fee > t.account.value.cash + 0.01)
            && (d.Refuse? ==> d.reason.TooThin? || d.reason.NotAffordable?)
            && (d.Fill? ==> d.filled == MinInt(quantity, OB.RealDepth(levels)) >= 1 && d.fee == fee && d.size == size
                            && Worth(d.filled, d.average) == OB.Cost(levels, quantity))
  {
    QuoteEats(levels, quantity);
  }

  lemma AnswerIsJustified(t: Tables, fees: FeeSchedule, r: OrderRequest, m: Market)
    requires Sane(t)
    ensures Justified(OutcomeOf(Decide(t, fees, r, m), r.quantity), t, fees, r, m)
  {
    if r.quantity >= 1 && r.side.Some? && m.contract.Some? && m.book.Some? {
      var book, side, size := m.book.value, r.side.value, m.contract.value.contractSize;
      var money := MoneyMoved(book, side, r.quantity, size);
      PriceMeans(t, fees, side, size, Eaten(book, side), r.quantity, money, FeeOf(fees, side, money));
    }
  }

  /** So an order is filled if and only if nothing blocks it, and refused for a reason iff that one is first. */
  lemma FilledIffNothingBlocks(t: Tables, fees: FeeSchedule, r: OrderRequest, m: Market, reason: Refusal)
    requires Sane(t)
    ensures Decide(t, fees, r, m).Fill? <==> NothingBlocks(t, fees, r, m)
    ensures Decide(t, fees, r, m) == Refuse(reason) <==> FirstBlock(reason, t, fees, r, m)
    ensures OrderWrites(Decide(t, fees, r, m), r.side)
         == if !NothingBlocks(t, fees, r, m) then 1 else if r.side == Some(OB.Buy) then 3 else 4
  {
    AnswerIsJustified(t, fees, r, m);
    var d := Decide(t, fees, r, m);
    if d.Refuse? {
      assert FirstBlock(d.reason, t, fees, r, m);
    }
  }

  // ---- What a settlement does ------------------------------------------------------------------

  function SettleCheck(t: Tables, symbol: string, price: Option<real>, m: Market, today: int): Option<SettleError> {
    if symbol !in t.positions then Some(NothingOpen)
    else if price.None? then Some(PriceNotFinite)
    else if price.value < 0.0 then Some(NegativePrice)
    else if m.contract.None? then Some(NoContract)
    else if m.contract.value.expiry >= today then Some(NotExpired)
    else None
  }

  predicate Prevents(error: SettleError, t: Tables, symbol: string, price: Option<real>, m: Market, today: int) {
    match error
    case NothingOpen => symbol !in t.positions
    case PriceNotFinite => price.None?
    case NegativePrice => price.Some? && price.value < 0.0
    case NoContract => m.contract.None?
    case NotExpired => m.contract.Some? && today <= m.contract.value.expiry
  }

  function ErrorRank(error: SettleError): nat {
    match error
    case NothingOpen => 0
    case PriceNotFinite => 1
    case NegativePrice => 2
    case NoContract => 3
    case NotExpired => 4
  }

  ghost predicate FirstError(
    error: SettleError, t: Tables, symbol: string, price: Option<real>, m: Market, today: int) {
    && Prevents(error, t, symbol, price, m, today)
    && forall x :: ErrorRank(x) < ErrorRank(error) ==> !Prevents(x, t, symbol, price, m, today)
  }

  /** Only an open position of a known contract past its expiry is settled, at a price of at least zero. */
  ghost predicate MaySettle(t: Tables, symbol: string, price: Option<real>, m: Market, today: int) {
    && symbol in t.positions && price.Some? && price.value >= 0.0
    && m.contract.Some? && m.contract.value.expiry < today
  }

  lemma SettledIffNothingPrevents(
    t: Tables, symbol: string, price: Option<real>, m: Market, today: int, error: SettleError)
    ensures SettleCheck(t, symbol, price, m, today).None? <==> MaySettle(t, symbol, price, m, today)
    ensures SettleCheck(t, symbol, price, m, today) == Some(error) <==> FirstError(error, t, symbol, price, m, today)
  {
    var found := SettleCheck(t, symbol, price, m, today);
    if found.Some? {
      assert FirstError(found.value, t, symbol, price, m, today);
    }
  }

  function SettleTrade(p: Position, fees: FeeSchedule, symbol: string, price: real, size: int, now: int): Trade {
    CloseRecord(
      symbol, p.quantity, p.averagePrice, price, If(p.entryFeesKnown, p.entryFees),
      If(fees.RatesKnown(), fees.ExitCost(Money(price, p.quantity, size), true)), size, p.openedAt, now)
  }

  function AfterSettle(t: Tables, fees: FeeSchedule, symbol: string, price: real, size: int, now: int): Tables
    requires t.account.Some? && symbol in t.positions
  {
    var p := t.positions[symbol];
    var notional := Money(price, p.quantity, size);
    t.WithCash(t.account.value.cash + notional - fees.ExitCost(notional, true))
     .WithoutPosition(symbol)
     .WithTrade(SettleTrade(p, fees, symbol, price, size, now))
  }

  // ---- Valuation of the open positions ------------------------------------------------------------

  function ValueOne(p: Position, m: Market, today: int): Valuation {
    var size := if m.contract.Some? then m.contract.value.contractSize else 1;
    var (status, mark) := Mark(p.quantity, m, today);
    Valuation(p.quantity, size, p.averagePrice, p.entryFees, p.entryFeesKnown, status, mark)
  }

  function Mark(quantity: int, m: Market, today: int): (ValuationStatus, Option<real>) {
    if m.contract.None? || m.contract.value.insCode == "" then (Unavailable, None)
    else if m.contract.value.expiry < today then (ExpiredUnsettled, None)
    else if m.book.None? then (Unavailable, None)
    else
      var (mark, fillable) := OB.Quote(m.book.value.bids, quantity);
      if mark.None? || fillable <= 0 then (NoDepth, None)
      else if fillable < quantity then (PartialDepth, None)
      else (Priced, mark)
  }

  function Snapshot(t: Tables, markets: string -> Market, today: int): AccountSnapshot
    requires t.account.Some?
  {
    AccountSnapshot(
      t.account.value.initialBalance, t.account.value.cash,
      map s | s in t.positions :: ValueOne(t.positions[s], markets(s), today), Summary(t.trades))
  }

  // ---- The broker object ----------------------------------------------------------------------------

  class PaperBroker {
    const store: PaperTradingStore
    const fees: FeeSchedule

    /** A broker over an existing store: it opens the account only when there is none. */
    constructor (store: PaperTradingStore, initialBalance: real, fees: FeeSchedule)
      modifies store
      ensures this.store == store && this.fees == fees
      ensures store.State()
           == if old(store.working).account.Some? || !Enough(old(store.writesLeft), 1) then old(store.State())
              else old(store.State()).Put(
                old(store.working).(account := Some(Account(initialBalance, initialBalance))))
      ensures old(store.State()).Clean() ==> store.State().Clean()
    {
      this.store := store;
      this.fees := fees;
      new;
      var _ := store.InitAccount(initialBalance);
    }

    method ApplyBuy(symbol: string, filled: int, average: real, fee: real, now: int, size: int) returns (ok: bool)
      requires Sane(store.working) && filled > 0 && store.depth > 0
      modifies store
      ensures store.depth == old(store.depth) && store.committed == old(store.committed)
      ensures ok <==> Enough(old(store.writesLeft), 2)
      ensures ok ==> store.writesLeft == old(store.writesLeft) - 2
      ensures ok ==>
                store.working == Bought(old(store.working), symbol, filled, average, fee, fees.RatesKnown(), now, size)
    {
      var account := store.working.account.value;
      var notional := Money(average, filled, size);
      ok := store.Execute(store.working.WithCash(account.cash - notional - fee));
      if !ok { return; }
      var known := fees.RatesKnown();
      var next: Position;
      if symbol !in store.working.positions {
        next := Position(filled, average, now, fee, known);
      } else {
        var existing := store.working.positions[symbol];
        var quantity := existing.quantity + filled;
        var oldCost := existing.quantity as real * existing.averagePrice;
        next := Position(
          quantity, (oldCost + filled as real * average) / quantity as real, existing.openedAt,
          existing.entryFees + fee, existing.entryFeesKnown && known);
      }
      assert next == Enlarged(old(store.working), symbol, filled, average, fee, known, now);
      ok := store.Execute(store.working.WithPosition(symbol, next));
    }

    method ApplySell(symbol: string, filled: int, average: real, fee: real, now: int, size: int) returns (ok: bool)
      requires Sane(store.working) && symbol in store.working.positions && store.depth > 0
      modifies store
      ensures store.depth == old(store.depth) && store.committed == old(store.committed)
      ensures ok <==> Enough(old(store.writesLeft), 3)
      ensures ok ==> store.writesLeft == old(store.writesLeft) - 3
      ensures ok ==>
                store.working == Sold(old(store.working), symbol, filled, average, fee, fees.RatesKnown(), now, size)
    {
      var position := store.working.positions[symbol];
      var cash := store.working.account.value.cash;
      ok := store.Execute(store.working.WithCash(cash + Money(average, filled, size) - fee));
      if !ok { return; }
      var share := AllocateEntryFee(position.entryFees, filled, position.quantity);
      var left := position.(quantity := position.quantity - filled, entryFees := position.entryFees - share);
      ok := store.Execute(store.working.WithPosition(symbol, left));
      if !ok { return; }
      ok := store.Execute(store.working.WithTrade(
        CloseRecord(symbol, filled, position.averagePrice, average, If(position.entryFeesKnown, share),
                    If(fees.RatesKnown(), fee), size, position.openedAt, now)));
    }

    method Reject(r: OrderRequest, reason: Refusal) returns (outcome: OrderOutcome)
      modifies store
      ensures outcome == if Enough(old(store.writesLeft), 1) then Refused(reason) else Raised
      ensures outcome.Refused?
              ==> store.State() == old(store.State()).Put(old(store.working).WithOrder(r.orderId, RefusalRow(r)))
      ensures outcome.Raised? ==> store.State() == old(store.State())
    {
      var ok := store.Execute(store.working.WithOrder(r.orderId, RefusalRow(r)));
      outcome := if ok then Refused(reason) else Raised;
    }

    /**
     * An order either takes its whole effect, on disk too, or raises and changes nothing, and it
     * raises only when the storage fails; a refused order changes only the order log.
     */
    method PlaceOrder(r: OrderRequest, m: Market) returns (outcome: OrderOutcome)
      requires store.State().Clean() && Sane(store.working)
      modifies store
      ensures store.State().Clean()
      ensures outcome.Raised? ==> store.working == old(store.working)
      ensures !outcome.Raised? ==> store.working == AfterOrder(old(store.working), fees, r, m)
      ensures !outcome.Raised? ==> Justified(outcome, old(store.working), fees, r, m)
      ensures var d := Decide(old(store.working), fees, r, m);
              outcome
              == if Enough(old(store.writesLeft), OrderWrites(d, r.side)) then OutcomeOf(d, r.quantity) else Raised
      ensures outcome.Refused? ==> store.working == old(store.working).(orders := store.working.orders)
    {
      AnswerIsJustified(store.working, fees, r, m);
      if r.quantity <= 0 { outcome := Reject(r, BadQuantity); return; }
      if r.side.None? { outcome := Reject(r, BadSide); return; }
      var side := r.side.value;
      if side.Sell? && Held(store.working, r.symbol) < r.quantity { outcome := Reject(r, NotEnoughHeld); return; }
      if m.contract.None? || m.contract.value.insCode == "" { outcome := Reject(r, UnknownContract); return; }
      var contract := m.contract.value;
      if contract.expiry < r.today { outcome := Reject(r, Expired); return; }
      if m.book.None? { outcome := Reject(r, NoBook); return; }
      var average, filled := OB.FillPrice(m.book.value, side, r.quantity);
      if average.None? || filled <= 0 { outcome := Reject(r, TooThin); return; }
      var size := contract.contractSize;
      var notional := Money(average.value, filled, size);
      var fee := if side.Buy? then fees.EntryCost(notional, true) else fees.ExitCost(notional, true);
      if side.Buy? && !Affordable(notional + fee, store.working.account.value.cash) {
        outcome := Reject(r, NotAffordable);
        return;
      }
      ghost var d := Decide(store.working, fees, r, m);
      assert d == Fill(average.value, filled, fee, size);
      DecideFacts(store.working, fees, r, m);
      var status := if filled == r.quantity then Filled else PartiallyFilled;
      store.EnterTransaction();
      var ok;
      if side.Buy? {
        ok := ApplyBuy(r.symbol, filled, average.value, fee, r.now, size);
      } else {
        ok := ApplySell(r.symbol, filled, average.value, fee, r.now, size);
      }
      if ok {
        ok := store.Execute(store.working.WithOrder(
          r.orderId, OrderRow(r.symbol, r.quantity, filled, average.value, status, fee)));
      }
      store.LeaveTransaction(!ok);
      outcome := if ok then Executed(status, filled, average.value, fee) else Raised;
    }

    /** Books the user's assumed price for an expired position, or changes nothing. */
    method SettlePosition(
      symbol: string, price: Option<real>, m: Market, today: int, now: int) returns (outcome: SettleOutcome)
      requires store.State().Clean() && Sane(store.working)
      modifies store
      ensures store.State().Clean()
      ensures outcome.Invalid? <==> SettleCheck(old(store.working), symbol, price, m, today).Some?
      ensures outcome.Invalid? ==> SettleCheck(old(store.working), symbol, price, m, today) == Some(outcome.error)
      ensures outcome.Invalid? ==> FirstError(outcome.error, old(store.working), symbol, price, m, today)
      ensures !outcome.Invalid? ==> MaySettle(old(store.working), symbol, price, m, today)
      ensures !outcome.Invalid? ==> (outcome.Settled? <==> Enough(old(store.writesLeft), 3))
      ensures !outcome.Settled? ==> store.working == old(store.working)
      ensures outcome.Settled? ==>
                && store.working
                   == AfterSettle(old(store.working), fees, symbol, price.value, m.contract.value.contractSize, now)
                && outcome.trade == store.working.trades[|store.working.trades| - 1]
    {
      if symbol !in store.working.positions { return Invalid(NothingOpen); }
      var position := store.working.positions[symbol];
      if price.None? { return Invalid(PriceNotFinite); }
      if price.value < 0.0 { return Invalid(NegativePrice); }
      if m.contract.None? { return Invalid(NoContract); }
      if m.contract.value.expiry >= today { return Invalid(NotExpired); }
      var size := m.contract.value.contractSize;
      var notional := Money(price.value, position.quantity, size);
      var fee := fees.ExitCost(notional, true);
      var trade := CloseRecord(
        symbol, position.quantity, position.averagePrice, price.value, If(position.entryFeesKnown, position.entryFees),
        If(fees.RatesKnown(), fee), size, position.openedAt, now);
      store.EnterTransaction();
      var ok := store.Execute(store.working.WithCash(store.working.account.value.cash + notional - fee));
      if ok { ok := store.Execute(store.working.WithoutPosition(symbol)); }
      if ok { ok := store.Execute(store.working.WithTrade(trade)); }
      store.LeaveTransaction(!ok);
      outcome := if ok then Settled(trade) else SettleRaised;
    }

    method Reset() returns (ok: bool)
      requires store.State().Clean() && Sane(store.working)
      modifies store
      ensures store.State().Clean()
      ensures ok <==> Enough(old(store.writesLeft), 4)
      ensures ok ==> store.working == NewAccount(old(store.working).account.value.initialBalance)
      ensures !ok ==> store.working == old(store.working)
    {
      ok := store.Reset(store.working.account.value.initialBalance);
    }
  }
}
