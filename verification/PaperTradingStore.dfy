/**
 * Nested transactions (storage/paper_trading_store.py, `transaction` and `_commit`): a depth
 * counter over a working copy and a committed copy, and the simple two-level meaning it has.
 */
module Transactions {

  /** What this connection sees, what is on disk, and how many blocks are open. */
  datatype Db<T> = Db(working: T, committed: T, depth: nat) {
    ghost predicate Clean() { depth == 0 && working == committed }

    /** One statement: committed at once unless an explicit block is open. */
    function Put(next: T): Db<T> { Db(next, if depth == 0 then next else committed, depth) }

    function Enter(): Db<T> { this.(depth := depth + 1) }

    /** Leaving a block: an inner one only counts down, the outermost commits or rolls back. */
    function Leave(raised: bool): Db<T> {
      if depth > 1 then this.(depth := depth - 1)
      else if raised then Db(committed, committed, 0)
      else Db(working, working, 0)
    }
  }

  /** Code that uses the store: a write, an exception, a `try` that swallows one, a nested block. */
  datatype Block<!T> =
    | Write(effect: T -> T)
    | Raise
    | Try(body: seq<Block<T>>)
    | Transaction(body: seq<Block<T>>)

  /** Runs the code on the depth-counting store; the flag tells whether an exception escapes. */
  function Exec<T>(code: seq<Block<T>>, db: Db<T>): (Db<T>, bool)
    decreases code
  {
    if code == [] then (db, false)
    else
      match code[0]
      case Write(effect) => Exec(code[1..], db.Put(effect(db.working)))
      case Raise => (db, true)
      case Try(body) => Exec(code[1..], Exec(body, db).0)
      case Transaction(body) =>
        var (after, raised) := Exec(body, db.Enter());
        if raised then (after.Leave(true), true) else Exec(code[1..], after.Leave(false))
  }

  /** The same code where blocks mean nothing: what happens inside an open transaction. */
  function Plain<T>(code: seq<Block<T>>, data: T): (T, bool)
    decreases code
  {
    if code == [] then (data, false)
    else
      match code[0]
      case Write(effect) => Plain(code[1..], effect(data))
      case Raise => (data, true)
      case Try(body) => Plain(code[1..], Plain(body, data).0)
      case Transaction(body) =>
        var (after, raised) := Plain(body, data);
        if raised then (after, true) else Plain(code[1..], after)
  }

  /** The promise: outside any block a transaction takes effect as a whole or not at all. */
  function AllOrNothing<T>(code: seq<Block<T>>, data: T): (T, bool)
    decreases code
  {
    if code == [] then (data, false)
    else
      match code[0]
      case Write(effect) => AllOrNothing(code[1..], effect(data))
      case Raise => (data, true)
      case Try(body) => AllOrNothing(code[1..], AllOrNothing(body, data).0)
      case Transaction(body) =>
        var (after, raised) := Plain(body, data);
        if raised then (data, true) else AllOrNothing(code[1..], after)
  }

  /** Inside a block nothing reaches the disk, and inner blocks change neither depth nor effect. */
  lemma {:induction false} InsideNothingIsCommitted<T>(code: seq<Block<T>>, db: Db<T>)
    requires db.depth > 0
    ensures Exec(code, db) == (Db(Plain(code, db.working).0, db.committed, db.depth), Plain(code, db.working).1)
    decreases code
  {
    if code != [] {
      match code[0]
      case Write(effect) =>
        InsideNothingIsCommitted(code[1..], db.Put(effect(db.working)));
      case Raise =>
      case Try(body) =>
        InsideNothingIsCommitted(body, db);
        InsideNothingIsCommitted(code[1..], Exec(body, db).0);
      case Transaction(body) =>
        InsideNothingIsCommitted(body, db.Enter());
        InsideNothingIsCommitted(code[1..], Exec(body, db.Enter()).0.Leave(false));
    }
  }

  /**
   * Arbitrarily nested code over a clean store means exactly `AllOrNothing`: it ends clean, and
   * an exception that leaves an outermost block leaves what was there before the block.
   */
  lemma {:induction false} TransactionsAreAtomic<T>(code: seq<Block<T>>, db: Db<T>)
    requires db.Clean()
    ensures var (after, raised) := AllOrNothing(code, db.working);
            Exec(code, db) == (Db(after, after, 0), raised)
    decreases code
  {
    if code != [] {
      match code[0]
      case Write(effect) =>
        TransactionsAreAtomic(code[1..], db.Put(effect(db.working)));
      case Raise =>
      case Try(body) =>
        TransactionsAreAtomic(body, db);
        TransactionsAreAtomic(code[1..], Exec(body, db).0);
      case Transaction(body) =>
        InsideNothingIsCommitted(body, db.Enter());
        if !Plain(body, db.working).1 {
          TransactionsAreAtomic(code[1..], Exec(body, db.Enter()).0.Leave(false));
        }
    }
  }
}

/** The paper-trading tables and the store object that writes them. */
module PaperTradingStores {
  import opened Common
  import opened PaperAccount
  import opened Transactions

  datatype OrderStatus = Filled | PartiallyFilled | Rejected

  datatype OrderRow = OrderRow(
    symbol: string, quantity: int, filledQuantity: int, averageFillPrice: real, status: OrderStatus, feePaid: real)

  datatype Tables = Tables(
    account: Option<Account>, positions: map<string, Position>, trades: seq<Trade>, orders: map<string, OrderRow>)
  {
    function WithCash(cash: real): Tables
      requires account.Some?
    {
      this.(account := Some(account.value.(cash := cash)))
    }

    /** Insert or update; a quantity that is not positive deletes, an update keeps `openedAt`. */
    function WithPosition(symbol: string, p: Position): Tables {
      if p.quantity <= 0 then WithoutPosition(symbol)
      else if symbol in positions then
        this.(positions := positions[symbol := p.(openedAt := positions[symbol].openedAt)])
      else this.(positions := positions[symbol := p])
    }

    function WithoutPosition(symbol: string): Tables { this.(positions := positions - {symbol}) }

    function WithTrade(trade: Trade): Tables { this.(trades := trades + [trade]) }

    function WithOrder(id: string, row: OrderRow): Tables { this.(orders := orders[id := row]) }
  }

  function NewAccount(balance: real): Tables { Tables(Some(Account(balance, balance)), map[], [], map[]) }

  /**
   * Every write may fail: `writesLeft` counts the statements that still succeed (negative:
   * all of them). A failing statement raises and has no effect of its own.
   */
  class PaperTradingStore {
    var working: Tables
    var committed: Tables
    var depth: nat
    var writesLeft: int

    constructor (tables: Tables, writesLeft: int)
      ensures State() == Db(tables, tables, 0)
    {
      this.working, this.committed, this.depth, this.writesLeft := tables, tables, 0, writesLeft;
    }

    function State(): Db<Tables>
      reads this
    {
      Db(working, committed, depth)
    }

    method EnterTransaction()
      modifies this
      ensures State() == old(State()).Enter() && writesLeft == old(writesLeft)
    {
      depth := depth + 1;
    }

    method LeaveTransaction(raised: bool)
      modifies this
      ensures State() == old(State()).Leave(raised) && writesLeft == old(writesLeft)
    {
      if depth > 1 {
        depth := depth - 1;
      } else {
        if raised {
          working := committed;
        } else {
          committed := working;
        }
        depth := 0;
      }
    }

    method Execute(next: Tables) returns (ok: bool)
      modifies this
      ensures State() == if ok then old(State()).Put(next) else old(State())
      ensures ok <==> old(writesLeft) != 0
      ensures writesLeft == if ok then old(writesLeft) - 1 else old(writesLeft)
    {
      ok := writesLeft != 0;
      if ok {
        working := next;
        writesLeft := writesLeft - 1;
        if depth == 0 {
          committed := working;
        }
      }
    }

    method InitAccount(balance: real) returns (ok: bool)
      modifies this
      ensures ok <==> old(working).account.Some? || Enough(old(writesLeft), 1)
      ensures State() == if old(working).account.Some? || !ok then old(State())
                         else old(State()).Put(old(working).(account := Some(Account(balance, balance))))
    {
      if working.account.Some? {
        return true;
      }
      ok := Execute(working.(account := Some(Account(balance, balance))));
    }

    /** Clears orders, positions and trades and restores the balance, in one transaction. */
    method Reset(balance: real) returns (ok: bool)
      modifies this
      ensures ok <==> Enough(old(writesLeft), 4)
      ensures ok ==> working == NewAccount(balance)
      ensures old(State()).Clean() ==> State().Clean() && (!ok ==> State() == old(State()))
    {
      EnterTransaction();
      ok := Execute(working.(orders := map[]));
      if ok { ok := Execute(working.(positions := map[])); }
      if ok { ok := Execute(working.(trades := [])); }
      if ok { ok := Execute(working.(account := Some(Account(balance, balance)))); }
      LeaveTransaction(!ok);
    }
  }
}
