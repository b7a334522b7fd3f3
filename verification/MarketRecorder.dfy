/**
 * The append-only market database (storage/market_recorder.py): one connection with a working
 * copy, a committed copy, and statements that may fail. Commits themselves do not fail here.
 */
module MarketRecorders {
  import opened Common
  import RS = RawSnapshots

  datatype Status = Partial | Complete | CompleteWithIssues | Failed {
    predicate Usable() { Complete? || CompleteWithIssues? }
  }

  /** One observation to be stored; no endpoint is the empty one. */
  datatype Content = Content(
    payload: string, extraction: RS.Result, requestedAt: int, receivedAt: int, sourceTime: Option<int>,
    source: string, endpoint: string)

  /**
   * What the fingerprint is computed from: of the extraction only six counts, and the time the
   * source gives not at all. The hash is taken to be injective.
   */
  datatype Fingerprint = Fingerprint(
    payload: string, source: string, endpoint: string, requestedAt: int, receivedAt: int,
    rows: int, contracts: int, rejected: int, conflicts: int, duplicates: int, invalidFields: int)

  /** `origin` is what a usable row was written from; the row keeps its payload, its counts and its fingerprint. */
  datatype Snapshot = Snapshot(
    status: Status, live: bool, requestedAt: int, contractCount: Option<int>, origin: Option<Content>,
    error: Option<string>)

  datatype Spec = Spec(insCode: string, terms: seq<RS.Cell>)

  datatype SpecRow = SpecRow(spec: Spec, firstSeenAt: int)

  datatype QuoteRow = QuoteRow(specId: nat, values: seq<RS.Cell>)

  datatype Note =
    | InvalidField(kind: RS.Kind, key: string, reason: string)
    | RejectedRow(row: RS.RejectedRow)
    | Conflicting(conflict: RS.Conflict)

  /** A row of the details tables: rejected rows, conflicts and invalid fields of one snapshot. */
  datatype Detail = Detail(id: string, note: Note)

  datatype BaseRow = BaseRow(insCode: Option<string>, values: seq<RS.Cell>)

  datatype Tables = Tables(
    snapshots: map<string, Snapshot>, specs: seq<SpecRow>, quotes: map<(string, string), QuoteRow>,
    bases: map<(string, string), BaseRow>, details: seq<Detail>)

  const EMPTY := Tables(map[], [], map[], map[], [])

  // ---- Single statements ---------------------------------------------------------------------

  function FindSpec(specs: seq<SpecRow>, spec: Spec): (i: nat)
    ensures i <= |specs| && (i < |specs| ==> specs[i].spec == spec)
    ensures forall j :: 0 <= j < i ==> specs[j].spec != spec
  {
    if specs == [] || specs[0].spec == spec then 0 else 1 + FindSpec(specs[1..], spec)
  }

  /** `_spec_id`: the version with exactly these terms, or a new one seen at `at`. */
  function WithSpec(t: Tables, spec: Spec, at: int): Tables {
    if FindSpec(t.specs, spec) < |t.specs| then t else t.(specs := t.specs + [SpecRow(spec, at)])
  }

  function Notes(id: string, notes: seq<Note>): seq<Detail> {
    if notes == [] then [] else Notes(id, notes[..|notes| - 1]) + [Detail(id, notes[|notes| - 1])]
  }

  function InvalidNotes(kind: RS.Kind, key: string, reasons: seq<string>): seq<Note> {
    seq(|reasons|, i requires 0 <= i < |reasons| => InvalidField(kind, key, reasons[i]))
  }

  function SpecOf(q: RS.Quote): Spec { Spec(q.insCode, q.terms) }

  /** INSERT OR REPLACE of one quote, keyed by snapshot and contract code. */
  function WithQuote(t: Tables, id: string, q: RS.Quote, at: int): Tables {
    var s := WithSpec(t, SpecOf(q), at);
    s.(quotes := s.quotes[(id, q.insCode) := QuoteRow(FindSpec(s.specs, SpecOf(q)), q.values)],
       details := s.details + Notes(id, InvalidNotes(RS.OfContract, q.insCode, q.invalidFields)))
  }

  function WithQuotes(t: Tables, id: string, qs: seq<RS.Quote>, at: int): Tables {
    if qs == [] then t else WithQuote(WithQuotes(t, id, qs[..|qs| - 1], at), id, qs[|qs| - 1], at)
  }

  /** Invalid fields of an underlying are filed under its stable code, or its symbol if it has none. */
  function NoteKey(u: RS.Underlying): string {
    if u.insCode.Some? && u.insCode.value != "" then u.insCode.value else u.symbol
  }

  function WithBase(t: Tables, id: string, u: RS.Underlying): Tables {
    t.(bases := t.bases[(id, u.symbol) := BaseRow(u.insCode, u.values)],
       details := t.details + Notes(id, InvalidNotes(RS.OfUnderlying, NoteKey(u), u.invalidFields)))
  }

  function WithBases(t: Tables, id: string, us: seq<RS.Underlying>): Tables {
    if us == [] then t else WithBase(WithBases(t, id, us[..|us| - 1]), id, us[|us| - 1])
  }

  function Remarks(e: RS.Result): seq<Note> {
    seq(|e.rejected|, i requires 0 <= i < |e.rejected| => RejectedRow(e.rejected[i]))
    + seq(|e.conflicts|, i requires 0 <= i < |e.conflicts| => Conflicting(e.conflicts[i]))
  }

  function WithRemarks(t: Tables, id: string, notes: seq<Note>): Tables { t.(details := t.details + Notes(id, notes)) }

  function WithSnapshot(t: Tables, id: string, s: Snapshot): Tables { t.(snapshots := t.snapshots[id := s]) }

  function Written(t: Tables, id: string, c: Content): Tables {
    WithRemarks(WithBases(WithQuotes(t, id, c.extraction.quotes, c.receivedAt), id, c.extraction.underlyings), id,
      Remarks(c.extraction))
  }

  function InvalidCount(e: RS.Result): nat { CountInvalid(e.quotes) + CountInvalidBases(e.underlyings) }

  function CountInvalid(qs: seq<RS.Quote>): nat {
    if qs == [] then 0 else CountInvalid(qs[..|qs| - 1]) + |qs[|qs| - 1].invalidFields|
  }

  function CountInvalidBases(us: seq<RS.Underlying>): nat {
    if us == [] then 0 else CountInvalidBases(us[..|us| - 1]) + |us[|us| - 1].invalidFields|
  }

  function FinalStatus(e: RS.Result): (s: Status)
    ensures s.Usable()
  {
    if e.conflicts == [] && e.rejected == [] && InvalidCount(e) == 0 then Complete else CompleteWithIssues
  }

  function FingerprintOf(c: Content): Fingerprint {
    var e := c.extraction;
    Fingerprint(c.payload, c.source, c.endpoint, c.requestedAt, c.receivedAt, e.rowCount, |e.quotes|, |e.rejected|,
      |e.conflicts|, e.duplicateCount, InvalidCount(e))
  }

  /** The stored row carries the fingerprint of `c`. */
  predicate SameFingerprint(s: Snapshot, c: Content) {
    s.origin.Some? && FingerprintOf(s.origin.value) == FingerprintOf(c)
  }

  function RowOf(live: bool, c: Content, status: Status): Snapshot {
    Snapshot(status, live, c.requestedAt, Some(|c.extraction.quotes|), Some(c), None)
  }

  /** A whole successful recording: the row starts partial and ends usable in one transaction. */
  function Recorded(t: Tables, live: bool, id: string, c: Content): Tables {
    WithSnapshot(Written(WithSnapshot(t, id, RowOf(live, c, Partial)), id, c), id,
      RowOf(live, c, FinalStatus(c.extraction)))
  }

  // ---- Calls --------------------------------------------------------------------------------------

  datatype Store = Store(working: Tables, committed: Tables) {
    predicate Clean() { working == committed }
  }

  datatype Outcome = Stored(count: int) | KindMismatch | SnapshotConflict | EncodingFailed | StorageFailed

  /** Where a statement fails during a call, if anywhere. */
  datatype Fault = NoFault | AtDelete | AtWrite

  datatype Call =
    | Record(id: string, live: bool, content: Content, encodable: bool, fault: Fault)
    | Failure(id: string, live: bool, requestedAt: int, error: string, encodable: bool, fault: Fault)
    | Reopen

  function FailedRow(live: bool, requestedAt: int, error: string): Snapshot {
    Snapshot(Failed, live, requestedAt, None, None, Some(error))
  }

  /** `record`: only an unknown id is written, and then wholly or not at all. */
  function AfterRecord(
    st: Store, kind: bool, id: string, live: bool, c: Content, encodable: bool, fault: Fault): (Store, Outcome) {
    if live != kind then (st, KindMismatch)
    else if !encodable then (st, EncodingFailed)
    else if id in st.working.snapshots then
      var s := st.working.snapshots[id];
      var count := if s.contractCount.Some? then s.contractCount.value else 0;
      (st, if SameFingerprint(s, c) then Stored(count) else SnapshotConflict)
    else if fault.AtWrite? then (Store(st.committed, st.committed), StorageFailed)
    else
      var next := Recorded(st.working, live, id, c);
      (Store(next, next), Stored(|c.extraction.quotes|))
  }

  /**
   * `record_failure`: an old failed row is deleted before the payload is encoded and outside the
   * transaction of the insert, so an encoding error leaves the deletion pending.
   */
  function AfterFailure(
    st: Store, kind: bool, id: string, live: bool, requestedAt: int, error: string, encodable: bool, fault: Fault)
    : (Store, Outcome)
  {
    if live != kind then (st, KindMismatch)
    else if id in st.working.snapshots && st.working.snapshots[id].status.Usable() then (st, SnapshotConflict)
    else if id in st.working.snapshots && fault.AtDelete? then (st, StorageFailed)
    else
      var deleted := st.working.(snapshots := st.working.snapshots - {id});
      if !encodable then (Store(deleted, st.committed), EncodingFailed)
      else if fault.AtWrite? then (Store(st.committed, st.committed), StorageFailed)
      else
        var next := WithSnapshot(deleted, id, FailedRow(live, requestedAt, error));
        (Store(next, next), Stored(0))
  }

  function After(st: Store, kind: bool, call: Call): Store {
    match call
    case Record(id, live, c, encodable, fault) => AfterRecord(st, kind, id, live, c, encodable, fault).0
    case Failure(id, live, requestedAt, error, encodable, fault) =>
      AfterFailure(st, kind, id, live, requestedAt, error, encodable, fault).0
    case Reopen => Store(st.committed, st.committed)
  }

  // ---- How many statements a call takes ----------------------------------------------------------

  function QuoteWrites(t: Tables, q: RS.Quote): nat {
    (if FindSpec(t.specs, SpecOf(q)) < |t.specs| then 1 else 2) + |q.invalidFields|
  }

  function QuotesWrites(t: Tables, id: string, qs: seq<RS.Quote>, at: int): nat {
    if qs == [] then 0
    else
      var front := qs[..|qs| - 1];
      QuotesWrites(t, id, front, at) + QuoteWrites(WithQuotes(t, id, front, at), qs[|qs| - 1])
  }

  function BasesWrites(us: seq<RS.Underlying>): nat {
    if us == [] then 0 else BasesWrites(us[..|us| - 1]) + 1 + |us[|us| - 1].invalidFields|
  }

  function RowsWrites(t: Tables, id: string, c: Content): nat {
    QuotesWrites(t, id, c.extraction.quotes, c.receivedAt) + BasesWrites(c.extraction.underlyings)
    + |Remarks(c.extraction)|
  }

  /** The rows of the snapshot, its own row, and the change of its status. */
  function RecordWrites(t: Tables, live: bool, id: string, c: Content): nat {
    RowsWrites(WithSnapshot(t, id, RowOf(live, c, Partial)), id, c) + 2
  }

  /** Where `record` fails when the storage takes `left` more statements. */
  function RecordFault(t: Tables, live: bool, id: string, c: Content, left: int): Fault {
    if Enough(left, RecordWrites(t, live, id, c)) then NoFault else AtWrite
  }

  /** A failure takes one statement, and one more to delete the row that is there. */
  function FailureFault(t: Tables, id: string, left: int): Fault {
    var deletions := if id in t.snapshots then 1 else 0;
    if !Enough(left, deletions) then AtDelete else if !Enough(left, deletions + 1) then AtWrite else NoFault
  }

  lemma {:induction false} LongerTakesMore(t: Tables, id: string, qs: seq<RS.Quote>, at: int, n: nat)
    requires n <= |qs|
    ensures QuotesWrites(t, id, qs[..n], at) <= QuotesWrites(t, id, qs, at)
  {
    if n == |qs| {
      assert qs[..n] == qs;
    } else {
      assert qs[..|qs| - 1][..n] == qs[..n];
      LongerTakesMore(t, id, qs[..|qs| - 1], at, n);
    }
  }

  lemma QuotesStep(t: Tables, id: string, qs: seq<RS.Quote>, at: int, n: nat, before: Tables, done: nat)
    requires n < |qs| && before == WithQuotes(t, id, qs[..n], at) && done == QuotesWrites(t, id, qs[..n], at)
    ensures WithQuotes(t, id, qs[..n + 1], at) == WithQuote(before, id, qs[n], at)
    ensures QuotesWrites(t, id, qs[..n + 1], at) == done + QuoteWrites(before, qs[n]) <= QuotesWrites(t, id, qs, at)
  {
    assert qs[..n + 1][..n] == qs[..n];
    LongerTakesMore(t, id, qs, at, n + 1);
  }

  lemma {:induction false} MoreBasesTakeMore(us: seq<RS.Underlying>, n: nat)
    requires n <= |us|
    ensures BasesWrites(us[..n]) <= BasesWrites(us)
  {
    if n == |us| {
      assert us[..n] == us;
    } else {
      assert us[..|us| - 1][..n] == us[..n];
      MoreBasesTakeMore(us[..|us| - 1], n);
    }
  }

  /** The connection object. `writesLeft` statements succeed before one fails (negative: all). */
  class MarketRecorder {
    const kind: bool
    var working: Tables
    var committed: Tables
    var writesLeft: int

    constructor (kind: bool, stored: Tables, writesLeft: int)
      ensures this.kind == kind && State() == Store(stored, stored)
    {
      this.kind, this.working, this.committed, this.writesLeft := kind, stored, stored, writesLeft;
    }

    function State(): Store
      reads this
    {
      Store(working, committed)
    }

    method Execute(next: Tables) returns (ok: bool)
      modifies this
      ensures State() == if ok then Store(next, old(committed)) else old(State())
      ensures ok <==> Enough(old(writesLeft), 1)
      ensures writesLeft == if ok then old(writesLeft) - 1 else old(writesLeft)
    {
      ok := writesLeft != 0;
      if ok {
        working, writesLeft := next, writesLeft - 1;
      }
    }

    method LeaveTransaction(raised: bool)
      modifies this
      ensures State() == if raised then Store(old(committed), old(committed)) else Store(old(working), old(working))
    {
      if raised {
        working := committed;
      } else {
        committed := working;
      }
    }

    /** Inserts the notes one by one. */
    method AddNotes(id: string, notes: seq<Note>) returns (ok: bool)
      modifies this
      ensures committed == old(committed) && (ok <==> Enough(old(writesLeft), |notes|))
      ensures ok ==> working == WithRemarks(old(working), id, notes) && writesLeft == old(writesLeft) - |notes|
    {
      var i := 0;
      assert working.details + [] == working.details;
      while i < |notes|
        invariant 0 <= i <= |notes| && committed == old(committed)
        invariant working == WithRemarks(old(working), id, notes[..i])
        invariant writesLeft == old(writesLeft) - i && Enough(old(writesLeft), i)
      {
        assert notes[..i + 1][..i] == notes[..i];
        ok := Execute(working.(details := working.details + [Detail(id, notes[i])]));
        if !ok {
          return;
        }
        i := i + 1;
      }
      assert notes[..|notes|] == notes;
      ok := true;
    }

    method AddQuote(id: string, q: RS.Quote, at: int) returns (ok: bool)
      modifies this
      ensures committed == old(committed) && (ok <==> Enough(old(writesLeft), QuoteWrites(old(working), q)))
      ensures ok ==> working == WithQuote(old(working), id, q, at)
                     && writesLeft == old(writesLeft) - QuoteWrites(old(working), q)
    {
      ok := true;
      if FindSpec(working.specs, SpecOf(q)) == |working.specs| {
        ok := Execute(working.(specs := working.specs + [SpecRow(SpecOf(q), at)]));
      }
      if ok {
        var row := QuoteRow(FindSpec(working.specs, SpecOf(q)), q.values);
        ok := Execute(working.(quotes := working.quotes[(id, q.insCode) := row]));
      }
      if ok {
        ok := AddNotes(id, InvalidNotes(RS.OfContract, q.insCode, q.invalidFields));
      }
    }

    method AddBase(id: string, u: RS.Underlying) returns (ok: bool)
      modifies this
      ensures committed == old(committed) && (ok <==> Enough(old(writesLeft), 1 + |u.invalidFields|))
      ensures ok ==> working == WithBase(old(working), id, u)
                     && writesLeft == old(writesLeft) - (1 + |u.invalidFields|)
    {
      ok := Execute(working.(bases := working.bases[(id, u.symbol) := BaseRow(u.insCode, u.values)]));
      if ok {
        ok := AddNotes(id, InvalidNotes(RS.OfUnderlying, NoteKey(u), u.invalidFields));
      }
    }

    method AddQuotes(id: string, qs: seq<RS.Quote>, at: int) returns (ok: bool, written: int)
      modifies this
      ensures committed == old(committed) && (ok <==> Enough(old(writesLeft), QuotesWrites(old(working), id, qs, at)))
      ensures ok ==> written == |qs| && working == WithQuotes(old(working), id, qs, at)
                     && writesLeft == old(writesLeft) - QuotesWrites(old(working), id, qs, at)
    {
      written := 0;
      while written < |qs|
        invariant 0 <= written <= |qs| && committed == old(committed)
        invariant working == WithQuotes(old(working), id, qs[..written], at)
        invariant writesLeft == old(writesLeft) - QuotesWrites(old(working), id, qs[..written], at)
        invariant Enough(old(writesLeft), QuotesWrites(old(working), id, qs[..written], at))
      {
        QuotesStep(old(working), id, qs, at, written, working, old(writesLeft) - writesLeft);
        ok := AddQuote(id, qs[written], at);
        if !ok {
          return;
        }
        written := written + 1;
      }
      assert qs[..|qs|] == qs;
      ok := true;
    }

    method AddBases(id: string, us: seq<RS.Underlying>) returns (ok: bool)
      modifies this
      ensures committed == old(committed) && (ok <==> Enough(old(writesLeft), BasesWrites(us)))
      ensures ok ==> working == WithBases(old(working), id, us) && writesLeft == old(writesLeft) - BasesWrites(us)
    {
      for i := 0 to |us|
        invariant committed == old(committed) && working == WithBases(old(working), id, us[..i])
        invariant writesLeft == old(writesLeft) - BasesWrites(us[..i]) && Enough(old(writesLeft), BasesWrites(us[..i]))
      {
        assert us[..i + 1][..i] == us[..i];
        MoreBasesTakeMore(us, i + 1);
        ok := AddBase(id, us[i]);
        if !ok {
          return;
        }
      }
      assert us[..|us|] == us;
      ok := true;
    }

    /** `_write_rows`: quotes, underlyings, rejected rows and conflicts. */
    method WriteRows(id: string, c: Content) returns (ok: bool, written: int)
      modifies this
      ensures committed == old(committed) && (ok <==> Enough(old(writesLeft), RowsWrites(old(working), id, c)))
      ensures ok ==> working == Written(old(working), id, c) && written == |c.extraction.quotes|
                     && writesLeft == old(writesLeft) - RowsWrites(old(working), id, c)
    {
      ok, written := AddQuotes(id, c.extraction.quotes, c.receivedAt);
      if ok {
        ok := AddBases(id, c.extraction.underlyings);
      }
      if ok {
        ok := AddNotes(id, Remarks(c.extraction));
      }
    }

    method Record(id: string, live: bool, c: Content, encodable: bool) returns (o: Outcome)
      modifies this
      ensures var fault := RecordFault(old(working), live, id, c, old(writesLeft));
              (State(), o) == AfterRecord(old(State()), kind, id, live, c, encodable, fault)
    {
      if live != kind {
        return KindMismatch;
      }
      if !encodable {
        return EncodingFailed;
      }
      if id in working.snapshots {
        var s := working.snapshots[id];
        if SameFingerprint(s, c) {
          return Stored(if s.contractCount.Some? then s.contractCount.value else 0);
        }
        return SnapshotConflict;
      }
      var written := 0;
      var ok := Execute(WithSnapshot(working, id, RowOf(live, c, Partial)));
      if ok {
        ok, written := WriteRows(id, c);
      }
      if ok {
        ok := written == |c.extraction.quotes|;
      }
      if ok {
        ok := Execute(WithSnapshot(working, id, RowOf(live, c, FinalStatus(c.extraction))));
      }
      LeaveTransaction(!ok);
      return if ok then Stored(written) else StorageFailed;
    }

    method RecordFailure(id: string, live: bool, requestedAt: int, error: string, encodable: bool) returns (o: Outcome)
      modifies this
      ensures var fault := FailureFault(old(working), id, old(writesLeft));
              (State(), o) == AfterFailure(old(State()), kind, id, live, requestedAt, error, encodable, fault)
    {
      if live != kind {
        return KindMismatch;
      }
      if id in working.snapshots {
        if working.snapshots[id].status.Usable() {
          return SnapshotConflict;
        }
        var ok := Execute(working.(snapshots := working.snapshots - {id}));
        if !ok {
          return StorageFailed;
        }
      }
      assert working.snapshots == old(working).snapshots - {id};
      if !encodable {
        return EncodingFailed;
      }
      var ok := Execute(WithSnapshot(working, id, FailedRow(live, requestedAt, error)));
      LeaveTransaction(!ok);
      o := if ok then Stored(0) else StorageFailed;
    }
  }
}
