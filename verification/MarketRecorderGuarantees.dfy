/** What every run of `record` and `record_failure` keeps of the market database. */
module MarketRecorderGuarantees {
  import opened Common
  import opened MarketRecorders
  import RS = RawSnapshots

  // ---- Writing one snapshot leaves the others alone ---------------------------------------------

  /** From `t` to `t'` only rows of `id` and new spec versions are added. */
  ghost predicate OnlyAdds(t: Tables, t': Tables, id: string) {
    && t.specs <= t'.specs && t'.snapshots == t.snapshots && t.details <= t'.details
    && (forall k: (string, string) ::
         k.0 != id ==> (k in t'.quotes <==> k in t.quotes) && (k in t.quotes ==> t'.quotes[k] == t.quotes[k]))
    && (forall k: (string, string) ::
         k.0 != id ==> (k in t'.bases <==> k in t.bases) && (k in t.bases ==> t'.bases[k] == t.bases[k]))
    && (forall i :: |t.details| <= i < |t'.details| ==> t'.details[i].id == id)
  }

  lemma AddsCompose(a: Tables, b: Tables, c: Tables, id: string)
    requires OnlyAdds(a, b, id) && OnlyAdds(b, c, id)
    ensures OnlyAdds(a, c, id)
  {}

  lemma {:induction false} NotesBelong(id: string, notes: seq<Note>)
    ensures forall d :: d in Notes(id, notes) ==> d.id == id
  {
    if notes != [] {
      NotesBelong(id, notes[..|notes| - 1]);
    }
  }

  lemma DetailsAdd(t: Tables, id: string, notes: seq<Note>)
    ensures OnlyAdds(t, WithRemarks(t, id, notes), id)
  {
    NotesBelong(id, notes);
    var t' := WithRemarks(t, id, notes);
    forall i | |t.details| <= i < |t'.details| ensures t'.details[i].id == id {
      assert t'.details[i] in Notes(id, notes);
    }
  }

  lemma QuoteAdds(t: Tables, id: string, q: RS.Quote, at: int)
    ensures OnlyAdds(t, WithQuote(t, id, q, at), id)
  {
    var s := WithSpec(t, SpecOf(q), at);
    var r := s.(quotes := s.quotes[(id, q.insCode) := QuoteRow(FindSpec(s.specs, SpecOf(q)), q.values)]);
    assert OnlyAdds(t, r, id);
    DetailsAdd(r, id, InvalidNotes(RS.OfContract, q.insCode, q.invalidFields));
    AddsCompose(t, r, WithQuote(t, id, q, at), id);
  }

  lemma {:induction false} QuotesAdd(t: Tables, id: string, qs: seq<RS.Quote>, at: int)
    ensures OnlyAdds(t, WithQuotes(t, id, qs, at), id)
  {
    if qs != [] {
      var before := WithQuotes(t, id, qs[..|qs| - 1], at);
      QuotesAdd(t, id, qs[..|qs| - 1], at);
      QuoteAdds(before, id, qs[|qs| - 1], at);
      AddsCompose(t, before, WithQuotes(t, id, qs, at), id);
    }
  }

  lemma BaseAdds(t: Tables, id: string, u: RS.Underlying)
    ensures OnlyAdds(t, WithBase(t, id, u), id) && WithBase(t, id, u).quotes == t.quotes
            && WithBase(t, id, u).specs == t.specs
  {
    var r := t.(bases := t.bases[(id, u.symbol) := BaseRow(u.insCode, u.values)]);
    assert OnlyAdds(t, r, id);
    DetailsAdd(r, id, InvalidNotes(RS.OfUnderlying, NoteKey(u), u.invalidFields));
    AddsCompose(t, r, WithBase(t, id, u), id);
  }

  lemma {:induction false} BasesAdd(t: Tables, id: string, us: seq<RS.Underlying>)
    ensures var t' := WithBases(t, id, us); OnlyAdds(t, t', id) && t'.quotes == t.quotes && t'.specs == t.specs
  {
    if us != [] {
      var before := WithBases(t, id, us[..|us| - 1]);
      BasesAdd(t, id, us[..|us| - 1]);
      BaseAdds(before, id, us[|us| - 1]);
      AddsCompose(t, before, WithBases(t, id, us), id);
    }
  }

  // ---- What a stored snapshot shows ----------------------------------------------------------------

  /** The quote row of this contract points to a spec with exactly these terms and has these values. */
  ghost predicate Shows(t: Tables, id: string, q: RS.Quote) {
    && (id, q.insCode) in t.quotes
    && t.quotes[(id, q.insCode)].specId < |t.specs|
    && t.specs[t.quotes[(id, q.insCode)].specId].spec == SpecOf(q)
    && t.quotes[(id, q.insCode)].values == q.values
  }

  ghost predicate ShowsCodes(t: Tables, id: string, qs: seq<RS.Quote>) {
    forall code :: (id, code) in t.quotes <==> code in RS.Codes(qs)
  }

  ghost predicate ShowsAll(t: Tables, id: string, qs: seq<RS.Quote>) { forall q :: q in qs ==> Shows(t, id, q) }

  ghost predicate Holds(t: Tables, id: string, qs: seq<RS.Quote>) {
    ShowsCodes(t, id, qs) && (RS.Distinct(qs) ==> ShowsAll(t, id, qs))
  }

  lemma CodesAppend(qs: seq<RS.Quote>, q: RS.Quote)
    ensures RS.Codes(qs + [q]) == RS.Codes(qs) + {q.insCode}
  {
    forall code ensures code in RS.Codes(qs + [q]) <==> code in RS.Codes(qs) + {q.insCode} {
      if code in RS.Codes(qs) {
        var i :| 0 <= i < |qs| && qs[i].insCode == code;
        assert (qs + [q])[i].insCode == code;
      }
      assert (qs + [q])[|qs|] == q;
    }
  }

  /** Every quote row points to an existing spec version. */
  ghost predicate Linked(t: Tables) { forall k :: k in t.quotes ==> t.quotes[k].specId < |t.specs| }

  lemma SpecIsThere(t: Tables, spec: Spec, at: int)
    ensures var s := WithSpec(t, spec, at); FindSpec(s.specs, spec) < |s.specs|
  {
    var s := WithSpec(t, spec, at);
    if FindSpec(t.specs, spec) == |t.specs| {
      assert s.specs[|t.specs|].spec == spec;
    }
  }

  lemma NewQuoteShows(t: Tables, id: string, q: RS.Quote, at: int)
    ensures Shows(WithQuote(t, id, q, at), id, q)
    ensures Linked(t) ==> Linked(WithQuote(t, id, q, at))
  {
    SpecIsThere(t, SpecOf(q), at);
  }

  lemma OldQuoteStays(t: Tables, id: string, q: RS.Quote, at: int, p: RS.Quote)
    requires Shows(t, id, p) && p.insCode != q.insCode
    ensures Shows(WithQuote(t, id, q, at), id, p)
  {}

  lemma {:induction false} QuotesShow(t: Tables, id: string, qs: seq<RS.Quote>, at: int)
    requires ShowsCodes(t, id, []) && Linked(t)
    ensures Holds(WithQuotes(t, id, qs, at), id, qs) && Linked(WithQuotes(t, id, qs, at))
  {
    if qs != [] {
      var front, last := qs[..|qs| - 1], qs[|qs| - 1];
      var before, after := WithQuotes(t, id, front, at), WithQuotes(t, id, qs, at);
      QuotesShow(t, id, front, at);
      assert qs == front + [last];
      CodesAppend(front, last);
      NewQuoteShows(before, id, last, at);
      if RS.Distinct(qs) {
        assert RS.Distinct(front);
        forall q | q in front ensures Shows(after, id, q) {
          OldQuoteStays(before, id, last, at, q);
        }
      }
    }
  }

  // ---- Underlyings and notes ----------------------------------------------------------------------

  function Symbols(us: seq<RS.Underlying>): set<string> { set i | 0 <= i < |us| :: us[i].symbol }

  /** The same underlying always came with the same values, as it does when the pass kept it. */
  ghost predicate Consistent(us: seq<RS.Underlying>) {
    forall i, j :: 0 <= i < |us| && 0 <= j < |us| && us[i].symbol == us[j].symbol ==> us[i] == us[j]
  }

  ghost predicate ShowsBase(t: Tables, id: string, u: RS.Underlying) {
    (id, u.symbol) in t.bases && t.bases[(id, u.symbol)] == BaseRow(u.insCode, u.values)
  }

  ghost predicate HoldsBases(t: Tables, id: string, us: seq<RS.Underlying>) {
    && (forall symbol :: (id, symbol) in t.bases <==> symbol in Symbols(us))
    && (Consistent(us) ==> forall i :: 0 <= i < |us| ==> ShowsBase(t, id, us[i]))
  }

  lemma SymbolsAppend(us: seq<RS.Underlying>)
    requires us != []
    ensures Symbols(us) == Symbols(us[..|us| - 1]) + {us[|us| - 1].symbol}
  {
    var front, last := us[..|us| - 1], us[|us| - 1];
    forall x ensures x in Symbols(us) <==> x in Symbols(front) + {last.symbol} {
      if x in Symbols(front) {
        var i :| 0 <= i < |front| && front[i].symbol == x;
        assert us[i].symbol == x;
      }
      if x in Symbols(us) {
        var i :| 0 <= i < |us| && us[i].symbol == x;
        assert i < |front| ==> front[i].symbol == x;
      }
      assert us[|us| - 1].symbol in Symbols(us);
    }
  }

  lemma {:induction false} BasesShow(t: Tables, id: string, us: seq<RS.Underlying>)
    requires forall symbol :: (id, symbol) !in t.bases
    ensures HoldsBases(WithBases(t, id, us), id, us)
  {
    if us != [] {
      var front, last := us[..|us| - 1], us[|us| - 1];
      BasesShow(t, id, front);
      SymbolsAppend(us);
      if Consistent(us) {
        assert Consistent(front);
        forall i | 0 <= i < |us| ensures ShowsBase(WithBases(t, id, us), id, us[i]) {
          if i < |front| {
            assert ShowsBase(WithBases(t, id, front), id, front[i]);
            assert us[i].symbol == us[|us| - 1].symbol ==> us[i] == us[|us| - 1];
          }
        }
      }
    }
  }

  /** The notes that the details tables hold about one snapshot. */
  function NotesOf(details: seq<Detail>, id: string): seq<Note> {
    if details == [] then []
    else
      var last := details[|details| - 1];
      NotesOf(details[..|details| - 1], id) + if last.id == id then [last.note] else []
  }

  function QuoteNotes(qs: seq<RS.Quote>): seq<Note> {
    if qs == [] then []
    else QuoteNotes(qs[..|qs| - 1]) + InvalidNotes(RS.OfContract, qs[|qs| - 1].insCode, qs[|qs| - 1].invalidFields)
  }

  function BaseNotes(us: seq<RS.Underlying>): seq<Note> {
    if us == [] then []
    else BaseNotes(us[..|us| - 1]) + InvalidNotes(RS.OfUnderlying, NoteKey(us[|us| - 1]), us[|us| - 1].invalidFields)
  }

  function AllNotes(e: RS.Result): seq<Note> { QuoteNotes(e.quotes) + BaseNotes(e.underlyings) + Remarks(e) }

  lemma NotesOfAppend(details: seq<Detail>, d: Detail, id: string)
    ensures NotesOf(details + [d], id) == NotesOf(details, id) + if d.id == id then [d.note] else []
  {
    assert (details + [d])[..|details|] == details;
  }

  lemma {:induction false} NotesAppended(details: seq<Detail>, id: string, notes: seq<Note>)
    ensures NotesOf(details + Notes(id, notes), id) == NotesOf(details, id) + notes
  {
    if notes == [] {
      assert details + Notes(id, notes) == details;
    } else {
      var front, d := notes[..|notes| - 1], Detail(id, notes[|notes| - 1]);
      NotesAppended(details, id, front);
      NotesOfAppend(details + Notes(id, front), d, id);
      Regroup(details, Notes(id, front), [d]);
      Regroup(NotesOf(details, id), front, [d.note]);
      assert notes == front + [d.note];
    }
  }

  lemma Regroup<T>(a: seq<T>, b: seq<T>, c: seq<T>)
    ensures a + (b + c) == a + b + c
  {}

  /** Details of another snapshot do not matter. */
  lemma {:induction false} NotesOfOthers(details: seq<Detail>, longer: seq<Detail>, id: string)
    requires details <= longer && forall i :: |details| <= i < |longer| ==> longer[i].id != id
    ensures NotesOf(longer, id) == NotesOf(details, id)
  {
    if |longer| > |details| {
      NotesOfOthers(details, longer[..|longer| - 1], id);
    } else {
      assert longer == details;
    }
  }

  lemma {:induction false} QuotesNote(t: Tables, id: string, qs: seq<RS.Quote>, at: int)
    ensures NotesOf(WithQuotes(t, id, qs, at).details, id) == NotesOf(t.details, id) + QuoteNotes(qs)
  {
    if qs != [] {
      var front, last := qs[..|qs| - 1], qs[|qs| - 1];
      var notes := InvalidNotes(RS.OfContract, last.insCode, last.invalidFields);
      QuotesNote(t, id, front, at);
      NotesAppended(WithQuotes(t, id, front, at).details, id, notes);
      Regroup(NotesOf(t.details, id), QuoteNotes(front), notes);
    }
  }

  lemma {:induction false} BasesNote(t: Tables, id: string, us: seq<RS.Underlying>)
    ensures NotesOf(WithBases(t, id, us).details, id) == NotesOf(t.details, id) + BaseNotes(us)
  {
    if us != [] {
      var front, last := us[..|us| - 1], us[|us| - 1];
      var notes := InvalidNotes(RS.OfUnderlying, NoteKey(last), last.invalidFields);
      BasesNote(t, id, front);
      NotesAppended(WithBases(t, id, front).details, id, notes);
      Regroup(NotesOf(t.details, id), BaseNotes(front), notes);
    }
  }

  // ---- A whole snapshot ---------------------------------------------------------------------------

  /** The tables show exactly this extraction under this id: quotes, underlyings and notes. */
  ghost predicate HoldsAll(t: Tables, id: string, e: RS.Result) {
    Holds(t, id, e.quotes) && HoldsBases(t, id, e.underlyings) && NotesOf(t.details, id) == AllNotes(e)
  }

  /** No row belongs to this id. */
  ghost predicate Unused(t: Tables, id: string) {
    ShowsCodes(t, id, []) && (forall symbol :: (id, symbol) !in t.bases) && NotesOf(t.details, id) == []
  }

  lemma QuotesLeaveBases(t: Tables, id: string, qs: seq<RS.Quote>, at: int)
    ensures WithQuotes(t, id, qs, at).bases == t.bases
  {
    if qs != [] {
      QuotesLeaveBases(t, id, qs[..|qs| - 1], at);
    }
  }

  lemma WrittenAdds(t: Tables, id: string, c: Content, a: Tables, b: Tables)
    requires a == WithQuotes(t, id, c.extraction.quotes, c.receivedAt)
             && b == WithBases(a, id, c.extraction.underlyings)
    ensures OnlyAdds(t, Written(t, id, c), id)
  {
    QuotesAdd(t, id, c.extraction.quotes, c.receivedAt);
    BasesAdd(a, id, c.extraction.underlyings);
    DetailsAdd(b, id, Remarks(c.extraction));
    AddsCompose(t, a, b, id);
    AddsCompose(t, b, Written(t, id, c), id);
  }

  lemma WrittenQuotes(t: Tables, id: string, c: Content, a: Tables)
    requires Unused(t, id) && Linked(t) && a == WithQuotes(t, id, c.extraction.quotes, c.receivedAt)
    ensures Holds(Written(t, id, c), id, c.extraction.quotes) && Linked(Written(t, id, c))
  {
    QuotesShow(t, id, c.extraction.quotes, c.receivedAt);
    BasesAdd(a, id, c.extraction.underlyings);
    HoldsMoves(a, Written(t, id, c), id, c.extraction.quotes);
  }

  lemma WrittenBases(t: Tables, id: string, c: Content, a: Tables)
    requires Unused(t, id) && a == WithQuotes(t, id, c.extraction.quotes, c.receivedAt)
    ensures HoldsBases(Written(t, id, c), id, c.extraction.underlyings)
  {
    QuotesLeaveBases(t, id, c.extraction.quotes, c.receivedAt);
    BasesShow(a, id, c.extraction.underlyings);
    BasesMove(WithBases(a, id, c.extraction.underlyings), Written(t, id, c), id, c.extraction.underlyings);
  }

  lemma WrittenNotes(t: Tables, id: string, c: Content, a: Tables, b: Tables)
    requires NotesOf(t.details, id) == []
    requires a == WithQuotes(t, id, c.extraction.quotes, c.receivedAt)
             && b == WithBases(a, id, c.extraction.underlyings)
    ensures NotesOf(Written(t, id, c).details, id) == AllNotes(c.extraction)
  {
    QuotesNote(t, id, c.extraction.quotes, c.receivedAt);
    BasesNote(a, id, c.extraction.underlyings);
    NotesAppended(b.details, id, Remarks(c.extraction));
    assert [] + QuoteNotes(c.extraction.quotes) == QuoteNotes(c.extraction.quotes);
  }

  lemma WrittenHolds(t: Tables, id: string, c: Content)
    requires Unused(t, id) && Linked(t)
    ensures OnlyAdds(t, Written(t, id, c), id) && HoldsAll(Written(t, id, c), id, c.extraction)
            && Linked(Written(t, id, c))
  {
    var a := WithQuotes(t, id, c.extraction.quotes, c.receivedAt);
    var b := WithBases(a, id, c.extraction.underlyings);
    WrittenAdds(t, id, c, a, b);
    WrittenQuotes(t, id, c, a);
    WrittenBases(t, id, c, a);
    WrittenNotes(t, id, c, a, b);
  }

  /** Nothing of this id differs, except that specs may have been added. */
  ghost predicate SameRows(t: Tables, t': Tables, id: string) {
    && t.specs <= t'.specs && NotesOf(t'.details, id) == NotesOf(t.details, id)
    && (forall k: (string, string) ::
         k.0 == id ==> (k in t'.quotes <==> k in t.quotes) && (k in t.quotes ==> t'.quotes[k] == t.quotes[k]))
    && (forall k: (string, string) ::
         k.0 == id ==> (k in t'.bases <==> k in t.bases) && (k in t.bases ==> t'.bases[k] == t.bases[k]))
  }

  lemma AddsLeaveOthers(t: Tables, t': Tables, id: string, other: string)
    requires OnlyAdds(t, t'.(snapshots := t.snapshots), id) && other != id
    ensures SameRows(t, t', other)
  {
    NotesOfOthers(t.details, t'.details, other);
  }

  lemma HoldsAllMoves(t: Tables, t': Tables, id: string, e: RS.Result)
    requires HoldsAll(t, id, e) && SameRows(t, t', id)
    ensures HoldsAll(t', id, e)
  {
    HoldsMoves(t, t', id, e.quotes);
    BasesMove(t, t', id, e.underlyings);
  }

  lemma BasesMove(t: Tables, t': Tables, id: string, us: seq<RS.Underlying>)
    requires HoldsBases(t, id, us)
    requires forall k: (string, string) ::
         k.0 == id ==> (k in t'.bases <==> k in t.bases) && (k in t.bases ==> t'.bases[k] == t.bases[k])
    ensures HoldsBases(t', id, us)
  {
    forall symbol ensures (id, symbol) in t'.bases <==> (id, symbol) in t.bases {
      assert (id, symbol).0 == id;
    }
    if Consistent(us) {
      forall i | 0 <= i < |us| ensures ShowsBase(t', id, us[i]) {
        assert ShowsBase(t, id, us[i]) && (id, us[i].symbol).0 == id;
      }
    }
  }

  /** What a snapshot holds depends on its own rows and the specs they point to only. */
  lemma HoldsMoves(t: Tables, t': Tables, id: string, qs: seq<RS.Quote>)
    requires Holds(t, id, qs) && t.specs <= t'.specs
    requires forall k: (string, string) ::
         k.0 == id ==> (k in t'.quotes <==> k in t.quotes) && (k in t.quotes ==> t'.quotes[k] == t.quotes[k])
    ensures Holds(t', id, qs)
  {
    forall code ensures (id, code) in t'.quotes <==> (id, code) in t.quotes {
      assert (id, code).0 == id;
    }
    if RS.Distinct(qs) {
      forall q | q in qs ensures Shows(t', id, q) {
        assert Shows(t, id, q) && (id, q.insCode).0 == id;
      }
    }
  }

  // ---- The database invariant -------------------------------------------------------------------------

  ghost predicate UsableIn(t: Tables, id: string) { id in t.snapshots && t.snapshots[id].status.Usable() }

  /**
   * Every row is of the database's kind and never partial; a usable snapshot holds exactly its
   * extraction and says how many quotes that has; a failed one has no content.
   */
  ghost predicate RowSound(t: Tables, kind: bool, id: string)
    requires id in t.snapshots
  {
    var s := t.snapshots[id];
    && s.live == kind && !s.status.Partial?
    && (s.status.Usable() ==> s.origin.Some? && s.contractCount == Some(|s.origin.value.extraction.quotes|)
                              && HoldsAll(t, id, s.origin.value.extraction))
    && (s.status.Failed? ==> s.origin.None? && s.contractCount.None?)
  }

  /** Only usable snapshots own child rows. */
  ghost predicate Owned(t: Tables) {
    && Linked(t) && (forall k :: k in t.quotes ==> UsableIn(t, k.0))
    && (forall k :: k in t.bases ==> UsableIn(t, k.0))
    && (forall d :: d in t.details ==> UsableIn(t, d.id))
  }

  ghost predicate Sound(t: Tables, kind: bool) { Owned(t) && forall id :: id in t.snapshots ==> RowSound(t, kind, id) }

  /** The usable snapshots of `t` are all there in `t'`, with the same rows and the same specs. */
  ghost predicate Keeps(t: Tables, t': Tables) {
    && t.specs <= t'.specs && t.details <= t'.details
    && (forall id :: UsableIn(t, id) ==> id in t'.snapshots && t'.snapshots[id] == t.snapshots[id])
    && (forall k: (string, string) ::
         UsableIn(t, k.0) ==> (k in t'.quotes <==> k in t.quotes) && (k in t.quotes ==> t'.quotes[k] == t.quotes[k]))
    && (forall k: (string, string) ::
         UsableIn(t, k.0) ==> (k in t'.bases <==> k in t.bases) && (k in t.bases ==> t'.bases[k] == t.bases[k]))
    && (forall i :: |t.details| <= i < |t'.details| ==> !UsableIn(t, t'.details[i].id))
  }

  lemma RecordedIsOwned(t: Tables, t3: Tables, id: string)
    requires Owned(t) && id !in t.snapshots && UsableIn(t3, id) && Linked(t3)
             && OnlyAdds(t, t3.(snapshots := t.snapshots), id)
    requires forall other :: other in t.snapshots ==> other in t3.snapshots && t3.snapshots[other] == t.snapshots[other]
    ensures Owned(t3)
  {
    forall k | k in t3.quotes ensures UsableIn(t3, k.0) {
      if k.0 != id { assert k in t.quotes; }
    }
    forall k | k in t3.bases ensures UsableIn(t3, k.0) {
      if k.0 != id { assert k in t.bases; }
    }
    forall d | d in t3.details ensures UsableIn(t3, d.id) {
      var i :| 0 <= i < |t3.details| && t3.details[i] == d;
      if i < |t.details| { assert t.details[i] in t.details; }
    }
  }

  /** Rows of other snapshots stay sound. */
  lemma RowStaysSound(t: Tables, t3: Tables, kind: bool, id: string, other: string)
    requires other in t.snapshots && other != id && RowSound(t, kind, other)
    requires OnlyAdds(t, t3.(snapshots := t.snapshots), id)
    requires other in t3.snapshots && t3.snapshots[other] == t.snapshots[other]
    ensures RowSound(t3, kind, other)
  {
    if t.snapshots[other].status.Usable() {
      AddsLeaveOthers(t, t3, id, other);
      HoldsAllMoves(t, t3, other, t.snapshots[other].origin.value.extraction);
    }
  }

  lemma RecordedTables(t: Tables, t1: Tables, t2: Tables, t3: Tables, id: string, partial: Snapshot, row: Snapshot)
    requires t1 == WithSnapshot(t, id, partial) && t3 == WithSnapshot(t2, id, row) && OnlyAdds(t1, t2, id)
    ensures t3 == t2.(snapshots := t3.snapshots) && OnlyAdds(t, t3.(snapshots := t.snapshots), id)
    ensures t3.snapshots == t.snapshots[id := row]
  {}

  lemma RecordedAdds(t: Tables, kind: bool, id: string, c: Content)
    requires Owned(t) && id !in t.snapshots
    ensures var t3 := Recorded(t, kind, id, c);
            && OnlyAdds(t, t3.(snapshots := t.snapshots), id) && Linked(t3) && RowSound(t3, kind, id)
            && t3.snapshots == t.snapshots[id := RowOf(kind, c, FinalStatus(c.extraction))]
  {
    var t1, t3 := WithSnapshot(t, id, RowOf(kind, c, Partial)), Recorded(t, kind, id, c);
    UnknownIsUnused(t, t1, id);
    WrittenHolds(t1, id, c);
    RecordedTables(
      t, t1, Written(t1, id, c), t3, id, RowOf(kind, c, Partial), RowOf(kind, c, FinalStatus(c.extraction)));
    HoldsAllMoves(Written(t1, id, c), t3, id, c.extraction);
  }

  lemma UnknownIsUnused(t: Tables, t1: Tables, id: string)
    requires Owned(t) && id !in t.snapshots && t1 == t.(snapshots := t1.snapshots)
    ensures Unused(t1, id)
  {
    forall code ensures (id, code) !in t1.quotes && (id, code) !in t1.bases {
      assert (id, code).0 == id;
    }
    forall i | 0 <= i < |t.details| ensures t.details[i].id != id {
      assert t.details[i] in t.details;
    }
    NotesOfOthers([], t.details, id);
  }

  lemma AddsKeep(t: Tables, t3: Tables, id: string)
    requires Owned(t) && id !in t.snapshots && OnlyAdds(t, t3.(snapshots := t.snapshots), id)
    requires forall other :: other in t.snapshots ==> other in t3.snapshots && t3.snapshots[other] == t.snapshots[other]
    ensures Keeps(t, t3)
  {}

  lemma RecordedKeeps(t: Tables, kind: bool, id: string, c: Content)
    requires Sound(t, kind) && id !in t.snapshots
    ensures Sound(Recorded(t, kind, id, c), kind) && Keeps(t, Recorded(t, kind, id, c))
  {
    var t3 := Recorded(t, kind, id, c);
    RecordedAdds(t, kind, id, c);
    forall other | other in t3.snapshots ensures RowSound(t3, kind, other) {
      if other != id { RowStaysSound(t, t3, kind, id, other); }
    }
    RecordedIsOwned(t, t3, id);
    AddsKeep(t, t3, id);
  }

  // ---- Calls -------------------------------------------------------------------------------------------

  /**
   * The connection sees what is committed, except that failed rows may be gone: the deletion of a
   * failed row is the one thing that can stay pending.
   */
  ghost predicate Pending(st: Store) {
    && st.working == st.committed.(snapshots := st.working.snapshots)
    && (forall id :: id in st.working.snapshots ==>
          id in st.committed.snapshots && st.committed.snapshots[id] == st.working.snapshots[id])
    && (forall id ::
         id in st.committed.snapshots && id !in st.working.snapshots ==> st.committed.snapshots[id].status.Failed?)
  }

  ghost predicate Inv(st: Store, kind: bool) { Sound(st.committed, kind) && Sound(st.working, kind) && Pending(st) }

  lemma KeepsTrans(a: Tables, b: Tables, c: Tables)
    requires Keeps(a, b) && Keeps(b, c)
    ensures Keeps(a, c)
  {}

  lemma PendingKeeps(st: Store)
    requires Pending(st)
    ensures Keeps(st.committed, st.working)
  {}

  /** `t'` differs from `t` in the row of one failed id only, which is dropped or replaced. */
  ghost predicate FailedRowOnly(t: Tables, t': Tables, kind: bool, id: string, row: Snapshot) {
    && !UsableIn(t, id) && t' == t.(snapshots := t'.snapshots)
    && (t'.snapshots == t.snapshots - {id} || t'.snapshots == (t.snapshots - {id})[id := row])
    && row.status.Failed? && row.live == kind && row.origin.None? && row.contractCount.None?
  }

  lemma OtherRowStaysSound(t: Tables, t': Tables, kind: bool, other: string)
    requires other in t.snapshots && RowSound(t, kind, other) && t' == t.(snapshots := t'.snapshots)
    requires other in t'.snapshots && t'.snapshots[other] == t.snapshots[other]
    ensures RowSound(t', kind, other)
  {
    if t.snapshots[other].status.Usable() {
      HoldsAllMoves(t, t', other, t.snapshots[other].origin.value.extraction);
    }
  }

  lemma FailedRowRows(t: Tables, t': Tables, kind: bool, id: string, row: Snapshot)
    requires Sound(t, kind) && FailedRowOnly(t, t', kind, id, row)
    ensures forall other :: other in t'.snapshots ==> RowSound(t', kind, other)
  {
    forall other | other in t'.snapshots ensures RowSound(t', kind, other) {
      if other != id { OtherRowStaysSound(t, t', kind, other); }
    }
  }

  lemma FailedRowOwned(t: Tables, t': Tables, kind: bool, id: string, row: Snapshot)
    requires Owned(t) && FailedRowOnly(t, t', kind, id, row)
    ensures Owned(t')
  {
    assert forall other :: UsableIn(t, other) ==> UsableIn(t', other);
  }

  /** That touches no usable snapshot and no child row. */
  lemma FailedRowChanges(t: Tables, t': Tables, kind: bool, id: string, row: Snapshot)
    requires Sound(t, kind) && FailedRowOnly(t, t', kind, id, row)
    ensures Sound(t', kind) && Keeps(t, t')
  {
    FailedRowRows(t, t', kind, id, row);
    FailedRowOwned(t, t', kind, id, row);
    FailedRowKeeps(t, t', kind, id, row);
  }

  lemma FailedRowKeeps(t: Tables, t': Tables, kind: bool, id: string, row: Snapshot)
    requires FailedRowOnly(t, t', kind, id, row)
    ensures Keeps(t, t')
  {}

  lemma RecordStep(st: Store, kind: bool, id: string, live: bool, c: Content, encodable: bool, fault: Fault)
    requires Inv(st, kind)
    ensures var st' := AfterRecord(st, kind, id, live, c, encodable, fault).0;
      Inv(st', kind) && Keeps(st.committed, st'.committed)
  {
    if live == kind && encodable && id !in st.working.snapshots && !fault.AtWrite? {
      RecordedKeeps(st.working, kind, id, c);
      PendingKeeps(st);
      KeepsTrans(st.committed, st.working, Recorded(st.working, kind, id, c));
    }
  }

  lemma FailureStep(
    st: Store, kind: bool, id: string, live: bool, at: int, error: string, encodable: bool, fault: Fault)
    requires Inv(st, kind)
    ensures var st' := AfterFailure(st, kind, id, live, at, error, encodable, fault).0;
      Inv(st', kind) && Keeps(st.committed, st'.committed)
  {
    var t := st.working;
    if live == kind && !UsableIn(t, id) && !(id in t.snapshots && fault.AtDelete?) {
      var deleted := t.(snapshots := t.snapshots - {id});
      assert id in t.snapshots ==> RowSound(t, kind, id);
      FailedRowChanges(t, deleted, kind, id, FailedRow(live, at, error));
      if encodable && !fault.AtWrite? {
        var next := WithSnapshot(deleted, id, FailedRow(live, at, error));
        FailedRowChanges(t, next, kind, id, FailedRow(live, at, error));
        PendingKeeps(st);
        KeepsTrans(st.committed, t, next);
      }
    }
  }

  lemma CallKeeps(st: Store, kind: bool, call: Call)
    requires Inv(st, kind)
    ensures Inv(After(st, kind, call), kind) && Keeps(st.committed, After(st, kind, call).committed)
  {
    match call
    case Record(id, live, c, encodable, fault) => RecordStep(st, kind, id, live, c, encodable, fault);
    case Failure(id, live, at, error, encodable, fault) => FailureStep(st, kind, id, live, at, error, encodable, fault);
    case Reopen =>
  }

  function Run(st: Store, kind: bool, calls: seq<Call>): Store {
    if calls == [] then st else After(Run(st, kind, calls[..|calls| - 1]), kind, calls[|calls| - 1])
  }

  /**
   * Over every run from a sound database: no partial row, every row of the right kind, failed ids
   * without child rows, usable snapshots showing exactly their extraction, and every usable
   * snapshot, its rows and the specs its rows point to unchanged for ever.
   */
  lemma {:induction false} EveryRunKeeps(st: Store, kind: bool, calls: seq<Call>)
    requires Inv(st, kind)
    ensures Inv(Run(st, kind, calls), kind) && Keeps(st.committed, Run(st, kind, calls).committed)
  {
    if calls != [] {
      var front := calls[..|calls| - 1];
      EveryRunKeeps(st, kind, front);
      CallKeeps(Run(st, kind, front), kind, calls[|calls| - 1]);
      KeepsTrans(st.committed, Run(st, kind, front).committed, Run(st, kind, calls).committed);
    }
  }

  lemma EmptyIsSound(kind: bool)
    ensures Inv(Store(EMPTY, EMPTY), kind)
  {}

  lemma {:induction false} RunSplits(st: Store, kind: bool, calls: seq<Call>, n: nat)
    requires n <= |calls|
    ensures Run(st, kind, calls) == Run(Run(st, kind, calls[..n]), kind, calls[n..])
  {
    if n == |calls| {
      assert calls[..n] == calls;
    } else {
      assert calls[..|calls| - 1][..n] == calls[..n];
      assert calls[n..][..|calls[n..]| - 1] == calls[..|calls| - 1][n..];
      RunSplits(st, kind, calls[..|calls| - 1], n);
    }
  }

  /**
   * Every history of a database that starts empty is sound, and whatever was usable at any moment
   * of it is still there at the end, with the same rows and the same specs.
   */
  lemma EveryHistoryKeeps(kind: bool, calls: seq<Call>, n: nat)
    requires n <= |calls|
    ensures Inv(Run(Store(EMPTY, EMPTY), kind, calls), kind)
    ensures Keeps(Run(Store(EMPTY, EMPTY), kind, calls[..n]).committed, Run(Store(EMPTY, EMPTY), kind, calls).committed)
  {
    EmptyIsSound(kind);
    EveryRunKeeps(Store(EMPTY, EMPTY), kind, calls[..n]);
    RunSplits(Store(EMPTY, EMPTY), kind, calls, n);
    EveryRunKeeps(Run(Store(EMPTY, EMPTY), kind, calls[..n]), kind, calls[n..]);
  }

  /** Recording the same observation again changes nothing and is answered with the same count; another is refused. */
  lemma RetryChangesNothing(st: Store, kind: bool, id: string, c: Content, again: Content, fault: Fault)
    requires Inv(st, kind) && id !in st.working.snapshots
    ensures var st' := AfterRecord(st, kind, id, kind, c, true, NoFault).0;
            AfterRecord(st', kind, id, kind, again, true, fault)
            == (st', if FingerprintOf(again) == FingerprintOf(c) then Stored(|c.extraction.quotes|)
                     else SnapshotConflict)
  {
    RecordedAdds(st.working, kind, id, c);
  }

  /** One payload recorded again with another value read and another time of the source passes as a retry. */
  lemma OtherRowsPassAsRetry(st: Store, kind: bool, id: string, c: Content, again: Content, q: RS.Quote)
    requires Inv(st, kind) && id !in st.working.snapshots && q == RS.Quote("a", [], [RS.Number(1.0)], [])
    requires c == Content("{}", RS.Result([q], [], [], [], 0, 1), 10, 11, None, "tsetmc", "")
    requires again == c.(sourceTime := Some(9), extraction := c.extraction.(quotes := [q.(values := [RS.Number(2.0)])]))
    ensures again.extraction != c.extraction && FingerprintOf(again) == FingerprintOf(c)
    ensures var st' := AfterRecord(st, kind, id, kind, c, true, NoFault).0;
            AfterRecord(st', kind, id, kind, again, true, NoFault) == (st', Stored(1))
  {
    assert c.extraction.quotes[0].values[0] != again.extraction.quotes[0].values[0];
    assert forall x: RS.Quote :: CountInvalid([x]) == |x.invalidFields| by {
      forall x: RS.Quote ensures CountInvalid([x]) == |x.invalidFields| { assert [x][..0] == []; }
    }
    RetryChangesNothing(st, kind, id, c, again, NoFault);
  }

  // ---- What the recorder answers -------------------------------------------------------------------------

  /** What the fingerprint compares: payload, origin and times of the call, and six counts. */
  ghost predicate LooksTheSame(a: Content, b: Content) {
    && a.payload == b.payload && a.source == b.source && a.endpoint == b.endpoint
    && a.requestedAt == b.requestedAt && a.receivedAt == b.receivedAt
    && a.extraction.rowCount == b.extraction.rowCount && |a.extraction.quotes| == |b.extraction.quotes|
    && |a.extraction.rejected| == |b.extraction.rejected| && |a.extraction.conflicts| == |b.extraction.conflicts|
    && a.extraction.duplicateCount == b.extraction.duplicateCount
    && InvalidCount(a.extraction) == InvalidCount(b.extraction)
  }

  /** This id was recorded with a content that looks the same. */
  ghost predicate RecordedAlike(st: Store, id: string, c: Content) {
    && id in st.working.snapshots && st.working.snapshots[id].origin.Some?
    && LooksTheSame(st.working.snapshots[id].origin.value, c)
  }

  /** Each answer of a recording by its own condition. */
  lemma RecordAnswers(
    st: Store, kind: bool, id: string, live: bool, c: Content, encodable: bool, fault: Fault, answer: Outcome)
    requires answer == AfterRecord(st, kind, id, live, c, encodable, fault).1
    ensures answer.KindMismatch? <==> live != kind
    ensures answer.EncodingFailed? <==> live == kind && !encodable
    ensures answer.SnapshotConflict?
            <==> live == kind && encodable && id in st.working.snapshots && !RecordedAlike(st, id, c)
    ensures answer.StorageFailed? <==> live == kind && encodable && id !in st.working.snapshots && fault.AtWrite?
    ensures answer.Stored?
            <==> live == kind && encodable
                 && (if id in st.working.snapshots then RecordedAlike(st, id, c) else !fault.AtWrite?)
    ensures answer.Stored? && id !in st.working.snapshots ==> answer.count == |c.extraction.quotes|
  {
    if id in st.working.snapshots && st.working.snapshots[id].origin.Some? {
      var origin := st.working.snapshots[id].origin.value;
      assert FingerprintOf(origin) == FingerprintOf(c) <==> LooksTheSame(origin, c);
    }
  }

  /** And each answer of recording a failure. */
  lemma FailureAnswers(
    st: Store, kind: bool, id: string, live: bool, requestedAt: int, error: string, encodable: bool, fault: Fault,
    answer: Outcome, usable: bool)
    requires answer == AfterFailure(st, kind, id, live, requestedAt, error, encodable, fault).1
    requires usable <==> id in st.working.snapshots && st.working.snapshots[id].status.Usable()
    ensures answer.KindMismatch? <==> live != kind
    ensures answer.SnapshotConflict? <==> live == kind && usable
    ensures answer.EncodingFailed?
            <==> live == kind && !usable && !encodable && !(id in st.working.snapshots && fault.AtDelete?)
    ensures answer.StorageFailed?
            <==> live == kind && !usable
                 && ((id in st.working.snapshots && fault.AtDelete?) || (encodable && fault.AtWrite?))
    ensures answer.Stored?
            <==> live == kind && !usable && encodable && !fault.AtWrite?
                 && !(id in st.working.snapshots && fault.AtDelete?)
  {}

  // ---- What the row of a snapshot tells -----------------------------------------------------------------

  /** No conflict, no rejection, and no field anywhere that could not be read. */
  ghost predicate Clear(e: RS.Result) {
    && e.conflicts == [] && e.rejected == []
    && (forall q :: q in e.quotes ==> q.invalidFields == [])
    && (forall u :: u in e.underlyings ==> u.invalidFields == [])
  }

  lemma {:induction false} NoInvalidQuote(qs: seq<RS.Quote>)
    ensures CountInvalid(qs) == 0 <==> forall q :: q in qs ==> q.invalidFields == []
  {
    if qs != [] {
      var front, last := qs[..|qs| - 1], qs[|qs| - 1];
      NoInvalidQuote(front);
      assert qs == front + [last];
    }
  }

  lemma {:induction false} NoInvalidBase(us: seq<RS.Underlying>)
    ensures CountInvalidBases(us) == 0 <==> forall u :: u in us ==> u.invalidFields == []
  {
    if us != [] {
      var front, last := us[..|us| - 1], us[|us| - 1];
      NoInvalidBase(front);
      assert us == front + [last];
    }
  }

  /** A first recording is complete exactly when nothing was wrong with it, and complete with issues otherwise. */
  lemma RecordedRowTells(st: Store, kind: bool, id: string, c: Content)
    requires id !in st.working.snapshots
    ensures var st' := AfterRecord(st, kind, id, kind, c, true, NoFault).0;
            && id in st'.committed.snapshots
            && var s := st'.committed.snapshots[id];
               && (s.status.Complete? <==> Clear(c.extraction))
               && (s.status.CompleteWithIssues? <==> !Clear(c.extraction))
               && s.live == kind && s.requestedAt == c.requestedAt && s.origin == Some(c) && s.error.None?
               && s.contractCount == Some(|c.extraction.quotes|)
  {
    NoInvalidQuote(c.extraction.quotes);
    NoInvalidBase(c.extraction.underlyings);
  }

  /** A failure is written as one, over no usable row: with its time and its error, and without any count. */
  lemma FailedRowTells(st: Store, kind: bool, id: string, requestedAt: int, error: string)
    requires id !in st.working.snapshots || !st.working.snapshots[id].status.Usable()
    ensures var st' := AfterFailure(st, kind, id, kind, requestedAt, error, true, NoFault).0;
            && st'.committed.snapshots
               == st.working.snapshots[id := Snapshot(Failed, kind, requestedAt, None, None, Some(error))]
            && st'.working == st'.committed
  {
    assert (st.working.snapshots - {id})[id := FailedRow(kind, requestedAt, error)]
        == st.working.snapshots[id := FailedRow(kind, requestedAt, error)];
  }

  /** An invalid field of this underlying, noted under its code, or under its symbol if it has none. */
  ghost predicate NotedBase(u: RS.Underlying, key: string, reason: string) {
    && reason in u.invalidFields
    && key == if u.insCode == None || u.insCode == Some("") then u.symbol else u.insCode.value
  }

  ghost predicate NotedQuote(q: RS.Quote, key: string, reason: string) { reason in q.invalidFields && key == q.insCode }

  lemma NoteAt(kind: RS.Kind, key: string, reasons: seq<string>, note: Note)
    ensures note in InvalidNotes(kind, key, reasons)
            <==> note.InvalidField? && note.kind == kind && note.key == key && note.reason in reasons
  {
    if note.InvalidField? && note.kind == kind && note.key == key && note.reason in reasons {
      var i :| 0 <= i < |reasons| && reasons[i] == note.reason;
      assert InvalidNotes(kind, key, reasons)[i] == note;
    }
  }

  lemma {:induction false} BaseNotesTell(us: seq<RS.Underlying>, note: Note)
    ensures note in BaseNotes(us)
            <==> note.InvalidField? && note.kind.OfUnderlying?
                 && exists u :: u in us && NotedBase(u, note.key, note.reason)
  {
    if us != [] {
      var front, last := us[..|us| - 1], us[|us| - 1];
      BaseNotesTell(front, note);
      NoteAt(RS.OfUnderlying, NoteKey(last), last.invalidFields, note);
      assert us == front + [last];
      if note.InvalidField? && NotedBase(last, note.key, note.reason) {
        assert last in us;
      }
      if note.InvalidField? && exists u :: u in front && NotedBase(u, note.key, note.reason) {
        var u :| u in front && NotedBase(u, note.key, note.reason);
        assert u in us;
      }
    }
  }

  lemma {:induction false} QuoteNotesTell(qs: seq<RS.Quote>, note: Note)
    ensures note in QuoteNotes(qs)
            <==> note.InvalidField? && note.kind.OfContract?
                 && exists q :: q in qs && NotedQuote(q, note.key, note.reason)
  {
    if qs != [] {
      var front, last := qs[..|qs| - 1], qs[|qs| - 1];
      QuoteNotesTell(front, note);
      NoteAt(RS.OfContract, last.insCode, last.invalidFields, note);
      assert qs == front + [last];
      if note.InvalidField? && NotedQuote(last, note.key, note.reason) {
        assert last in qs;
      }
      if note.InvalidField? && exists q :: q in front && NotedQuote(q, note.key, note.reason) {
        var q :| q in front && NotedQuote(q, note.key, note.reason);
        assert q in qs;
      }
    }
  }

  /** The notes of a recording: every invalid field by its owner, every rejection, every conflict, and no others. */
  lemma NotesTell(e: RS.Result, note: Note)
    ensures note in AllNotes(e) <==>
      match note
      case InvalidField(OfContract, key, reason) => exists q :: q in e.quotes && NotedQuote(q, key, reason)
      case InvalidField(OfUnderlying, key, reason) => exists u :: u in e.underlyings && NotedBase(u, key, reason)
      case RejectedRow(row) => row in e.rejected
      case Conflicting(conflict) => conflict in e.conflicts
  {
    QuoteNotesTell(e.quotes, note);
    BaseNotesTell(e.underlyings, note);
    RemarksTell(e, note);
  }

  lemma RemarksTell(e: RS.Result, note: Note)
    ensures note in Remarks(e)
            <==> (note.RejectedRow? && note.row in e.rejected) || (note.Conflicting? && note.conflict in e.conflicts)
  {
    if note.RejectedRow? && note.row in e.rejected {
      var i :| 0 <= i < |e.rejected| && e.rejected[i] == note.row;
      assert Remarks(e)[i] == note;
    }
    if note.Conflicting? && note.conflict in e.conflicts {
      var i :| 0 <= i < |e.conflicts| && e.conflicts[i] == note.conflict;
      assert Remarks(e)[|e.rejected| + i] == note;
    }
  }

  /** Versions of contract terms stay where they are, and new ones carry the time of this recording. */
  lemma {:induction false} SpecsAreDated(t: Tables, id: string, qs: seq<RS.Quote>, at: int)
    ensures t.specs <= WithQuotes(t, id, qs, at).specs
    ensures forall k :: |t.specs| <= k < |WithQuotes(t, id, qs, at).specs| ==>
      WithQuotes(t, id, qs, at).specs[k].firstSeenAt == at
  {
    if qs != [] {
      SpecsAreDated(t, id, qs[..|qs| - 1], at);
    }
  }

  // ---- Counts ---------------------------------------------------------------------------------------------

  function QuoteCodes(t: Tables, id: string): set<string> { set k | k in t.quotes && k.0 == id :: k.1 }

  lemma {:induction false} CodesCount(qs: seq<RS.Quote>)
    ensures |RS.Codes(qs)| == |qs| <==> RS.Distinct(qs)
    ensures |RS.Codes(qs)| <= |qs|
  {
    if qs != [] {
      var front, last := qs[..|qs| - 1], qs[|qs| - 1];
      CodesCount(front);
      assert qs == front + [last];
      CodesAppend(front, last);
      if last.insCode in RS.Codes(front) {
        var i :| 0 <= i < |front| && front[i].insCode == last.insCode;
        assert qs[i].insCode == qs[|qs| - 1].insCode;
        assert RS.Codes(front) + {last.insCode} == RS.Codes(front);
      } else {
        forall i | 0 <= i < |front| ensures front[i].insCode != last.insCode {
          assert front[i].insCode in RS.Codes(front);
        }
      }
    }
  }

  /** The stored count is the number of quote rows exactly when no contract code was given twice. */
  lemma StoredCountIsRowCount(t: Tables, kind: bool, id: string)
    requires Sound(t, kind) && UsableIn(t, id)
    ensures t.snapshots[id].contractCount == Some(|QuoteCodes(t, id)|)
            <==> RS.Distinct(t.snapshots[id].origin.value.extraction.quotes)
  {
    assert RowSound(t, kind, id);
    var qs := t.snapshots[id].origin.value.extraction.quotes;
    CodesCount(qs);
    forall code ensures code in QuoteCodes(t, id) <==> code in RS.Codes(qs) {
      assert code in QuoteCodes(t, id) <==> (id, code) in t.quotes;
    }
    assert QuoteCodes(t, id) == RS.Codes(qs);
  }

  /** Recording what `extract` keeps: every quote and every underlying is there, and counted. */
  lemma ExtractedIsShown(
    t: Tables, kind: bool, id: string, e: RS.Result, sides: seq<RS.Side>, bases: seq<RS.Underlying>)
    requires Sound(t, kind) && UsableIn(t, id) && t.snapshots[id].origin.value.extraction == e
    requires RS.KeepsTheUncontested(e.quotes, sides) && RS.KeepsTheUncontestedBases(e.underlyings, bases)
    ensures ShowsAll(t, id, e.quotes) && forall u :: u in e.underlyings ==> ShowsBase(t, id, u)
    ensures t.snapshots[id].contractCount == Some(|QuoteCodes(t, id)|)
    ensures NotesOf(t.details, id) == AllNotes(e)
  {
    assert RowSound(t, kind, id);
    StoredCountIsRowCount(t, kind, id);
    var us := e.underlyings;
    forall i, j | 0 <= i < |us| && 0 <= j < |us| && us[i].symbol == us[j].symbol ensures us[i] == us[j] {
      assert RS.UncontestedBase(bases, us[i]) && us[j] in us && RS.UncontestedBase(bases, us[j]);
    }
    assert Consistent(us);
  }

  // ---- The life of one id ------------------------------------------------------------------------------------

  datatype Stage = Absent | FailedOnly | Settled

  function StageOf(t: Tables, id: string): Stage {
    if id !in t.snapshots then Absent else if t.snapshots[id].status.Usable() then Settled else FailedOnly
  }

  /** The call deletes a failed row and then stops on a payload that cannot be encoded. */
  predicate StrayDelete(st: Store, kind: bool, call: Call) {
    && call.Failure? && call.live == kind && !call.encodable && !call.fault.AtDelete?
    && call.id in st.working.snapshots && !st.working.snapshots[call.id].status.Usable()
  }

  /** Exactly such a call leaves a deletion pending. */
  lemma OnlyStrayDeletesStayPending(st: Store, kind: bool, call: Call)
    requires st.Clean()
    ensures After(st, kind, call).Clean() <==> !StrayDelete(st, kind, call)
  {
    if call.Failure? {
      var deleted := st.working.snapshots - {call.id};
      assert call.id in st.working.snapshots ==> deleted != st.working.snapshots;
      assert call.id !in st.working.snapshots ==> deleted == st.working.snapshots;
    }
  }

  // ---- What a call does to one id -------------------------------------------------------------

  /** What a call does with everything this connection has pending. */
  datatype Effect = Commits | RollsBack | Nothing

  function EffectOf(st: Store, kind: bool, call: Call): Effect {
    match call
    case Record(id, live, _, encodable, fault) =>
      if live != kind || !encodable || id in st.working.snapshots then Nothing
      else if fault.AtWrite? then RollsBack
      else Commits
    case Failure(id, live, _, _, encodable, fault) =>
      var blocked := id in st.working.snapshots && (st.working.snapshots[id].status.Usable() || fault.AtDelete?);
      if live != kind || blocked || !encodable then Nothing else if fault.AtWrite? then RollsBack else Commits
    case Reopen => RollsBack
  }

  /** An id as disk and connection see it; `Deleted` is failed on disk with its deletion pending. */
  datatype Life = Free | Failing | Deleted | Kept

  function LifeOf(st: Store, id: string): Life {
    match StageOf(st.committed, id)
    case Absent => Free
    case FailedOnly => if id in st.working.snapshots then Failing else Deleted
    case Settled => Kept
  }

  /** What a call means for one id. */
  datatype Move = NowUsable | FailedAgain | Committed | RolledBack | Strayed | Idle

  predicate IsAbout(call: Call, id: string) { !call.Reopen? && call.id == id }

  function MoveOf(st: Store, kind: bool, call: Call, id: string): Move {
    match EffectOf(st, kind, call)
    case Commits => if !IsAbout(call, id) then Committed else if call.Record? then NowUsable else FailedAgain
    case RollsBack => RolledBack
    case Nothing => if StrayDelete(st, kind, call) && IsAbout(call, id) then Strayed else Idle
  }

  /** Only an id that the connection does not see can be recorded; a usable one never changes. */
  function NextLife(life: Life, move: Move): Life {
    match move
    case NowUsable => if life.Free? || life.Deleted? then Kept else life
    case FailedAgain => if life.Kept? then Kept else Failing
    case Committed => if life.Deleted? then Free else life
    case RolledBack => if life.Deleted? then Failing else life
    case Strayed => if life.Failing? then Deleted else life
    case Idle => life
  }

  /** The connection sees the row that is on disk, or has deleted a failed one. */
  ghost predicate Seen(st: Store, id: string) {
    && (id in st.working.snapshots ==>
          id in st.committed.snapshots && st.committed.snapshots[id] == st.working.snapshots[id])
    && (id in st.committed.snapshots ==>
          if id in st.working.snapshots then !st.committed.snapshots[id].status.Partial?
          else st.committed.snapshots[id].status.Failed?)
  }

  lemma EveryIdIsSeen(st: Store, kind: bool, id: string)
    requires Inv(st, kind)
    ensures Seen(st, id)
  {
    assert id in st.committed.snapshots ==> RowSound(st.committed, kind, id);
  }

  /** Everything is on disk, and it is what the connection saw with this one row written. */
  ghost predicate CommittedWith(st: Store, st': Store, id: string, row: Snapshot) {
    st'.Clean() && st'.committed.snapshots == st.working.snapshots[id := row]
  }

  lemma CommitWrites(st: Store, kind: bool, call: Call) returns (row: Snapshot)
    requires Inv(st, kind) && EffectOf(st, kind, call).Commits?
    ensures !call.Reopen? && CommittedWith(st, After(st, kind, call), call.id, row)
    ensures if call.Record? then row.status.Usable() else row.status.Failed?
  {
    if call.Record? {
      row := RowOf(kind, call.content, FinalStatus(call.content.extraction));
      RecordedRow(st.working, kind, call.id, call.content);
    } else {
      row := FailedRow(kind, call.requestedAt, call.error);
      FailureWrites(st, kind, call, row);
    }
  }

  lemma RecordedRow(t: Tables, kind: bool, id: string, c: Content)
    requires Owned(t) && id !in t.snapshots
    ensures Recorded(t, kind, id, c).snapshots == t.snapshots[id := RowOf(kind, c, FinalStatus(c.extraction))]
  {
    RecordedAdds(t, kind, id, c);
  }

  lemma FailureWrites(st: Store, kind: bool, call: Call, row: Snapshot)
    requires call.Failure? && EffectOf(st, kind, call).Commits?
             && row == FailedRow(kind, call.requestedAt, call.error)
    ensures CommittedWith(st, After(st, kind, call), call.id, row)
  {
    assert (st.working.snapshots - {call.id})[call.id := row] == st.working.snapshots[call.id := row];
  }

  lemma CommitMoves(st: Store, kind: bool, call: Call, st': Store, row: Snapshot, id: string)
    requires EffectOf(st, kind, call).Commits? && Seen(st, id) && CommittedWith(st, st', call.id, row)
    requires if call.Record? then row.status.Usable() else row.status.Failed?
    ensures LifeOf(st', id) == NextLife(LifeOf(st, id), MoveOf(st, kind, call, id))
  {
    if call.id != id {
      assert st'.committed.snapshots.Keys == st.working.snapshots.Keys + {call.id};
    }
  }

  lemma OtherMoves(st: Store, kind: bool, call: Call, id: string)
    requires !EffectOf(st, kind, call).Commits? && Seen(st, id)
    ensures LifeOf(After(st, kind, call), id) == NextLife(LifeOf(st, id), MoveOf(st, kind, call, id))
  {
    assert After(st, kind, call).committed == st.committed;
  }

  /** Every id follows a machine of four states, whatever happens to the others. */
  lemma LifeStep(st: Store, kind: bool, call: Call, id: string)
    requires Inv(st, kind)
    ensures LifeOf(After(st, kind, call), id) == NextLife(LifeOf(st, id), MoveOf(st, kind, call, id))
  {
    EveryIdIsSeen(st, kind, id);
    if EffectOf(st, kind, call).Commits? {
      var row := CommitWrites(st, kind, call);
      CommitMoves(st, kind, call, After(st, kind, call), row, id);
    } else {
      OtherMoves(st, kind, call, id);
    }
  }

  /**
   * Failed for good is what the documentation promises. Exactly: a failed id is left by a call
   * that commits while its deletion is pending, unless that call records a failure for it again.
   */
  lemma FailedIsLeft(st: Store, kind: bool, call: Call, id: string)
    requires Inv(st, kind) && StageOf(st.committed, id) == FailedOnly
    ensures StageOf(After(st, kind, call).committed, id) != FailedOnly
            <==> id !in st.working.snapshots && EffectOf(st, kind, call).Commits?
                 && !(call.Failure? && call.id == id)
    ensures StageOf(After(st, kind, call).committed, id) == Settled ==> call.Record? && call.id == id
  {
    LifeStep(st, kind, call, id);
    FailedMoves(st, kind, call, After(st, kind, call), id);
  }

  lemma FailedMoves(st: Store, kind: bool, call: Call, st': Store, id: string)
    requires StageOf(st.committed, id) == FailedOnly
    requires LifeOf(st', id) == NextLife(LifeOf(st, id), MoveOf(st, kind, call, id))
    ensures StageOf(st'.committed, id) != FailedOnly
            <==> id !in st.working.snapshots && EffectOf(st, kind, call).Commits?
                 && !(call.Failure? && call.id == id)
    ensures StageOf(st'.committed, id) == Settled ==> call.Record? && call.id == id
  {}

  // ---- The life of one id over a run ------------------------------------------------------------

  function Moves(st: Store, kind: bool, calls: seq<Call>, id: string): (moves: seq<Move>)
    ensures |moves| == |calls|
  {
    if calls == [] then []
    else
      var front := calls[..|calls| - 1];
      Moves(st, kind, front, id) + [MoveOf(Run(st, kind, front), kind, calls[|calls| - 1], id)]
  }

  function LifeAfter(life: Life, moves: seq<Move>): Life {
    if moves == [] then life else NextLife(LifeAfter(life, moves[..|moves| - 1]), moves[|moves| - 1])
  }

  lemma {:induction false} LifeOfRun(st: Store, kind: bool, calls: seq<Call>, id: string)
    requires Inv(st, kind)
    ensures LifeOf(Run(st, kind, calls), id) == LifeAfter(LifeOf(st, id), Moves(st, kind, calls, id))
  {
    if calls != [] {
      var front := calls[..|calls| - 1];
      EveryRunKeeps(st, kind, front);
      LifeOfRun(st, kind, front, id);
      LifeStep(Run(st, kind, front), kind, calls[|calls| - 1], id);
      assert Moves(st, kind, calls, id)[..|front|] == Moves(st, kind, front, id);
    }
  }

  lemma {:induction false} MovesOfPrefix(st: Store, kind: bool, calls: seq<Call>, id: string, n: nat)
    requires n <= |calls|
    ensures Moves(st, kind, calls[..n], id) == Moves(st, kind, calls, id)[..n]
  {
    if n == |calls| {
      assert calls[..n] == calls;
    } else {
      var front := calls[..|calls| - 1];
      MovesOfPrefix(st, kind, front, id, n);
      assert front[..n] == calls[..n];
    }
  }

  /** A stray deletion at `i`, with nothing committed or rolled back up to `n`. */
  ghost predicate StraySince(moves: seq<Move>, i: int, n: int) {
    0 <= i < n <= |moves| && moves[i].Strayed? && forall j :: i < j < n ==> moves[j].Idle?
  }

  /** Call `k` commits a stray deletion, and does not record a failure for the id again. */
  ghost predicate CommitsStray(moves: seq<Move>, i: int, k: int) {
    0 <= k < |moves| && StraySince(moves, i, k) && (moves[k].Committed? || moves[k].NowUsable?)
  }

  predicate StillFailed(life: Life) { life.Failing? || life.Deleted? }

  lemma {:induction false} DeletedSince(moves: seq<Move>)
    requires LifeAfter(Failing, moves).Deleted?
    ensures exists i :: StraySince(moves, i, |moves|)
  {
    var front, n := moves[..|moves| - 1], |moves| - 1;
    if moves[n].Strayed? {
      assert StraySince(moves, n, n + 1);
    } else {
      DeletedSince(front);
      var i :| StraySince(front, i, n);
      assert front[i] == moves[i] && StraySince(moves, i, n + 1);
    }
  }

  lemma {:induction false} StrayStays(moves: seq<Move>, i: nat, n: nat)
    requires StraySince(moves, i, n) && StillFailed(LifeAfter(Failing, moves[..i]))
    ensures LifeAfter(Failing, moves[..n]).Deleted?
  {
    assert moves[..n][..n - 1] == moves[..n - 1];
    if n > i + 1 {
      StrayStays(moves, i, n - 1);
    }
  }

  /** While the id stays failed nothing has committed a stray deletion, and the other way round. */
  lemma {:induction false} FailedLasts(moves: seq<Move>)
    ensures (forall n :: 0 <= n <= |moves| ==> StillFailed(LifeAfter(Failing, moves[..n])))
            <==> !exists i, k :: CommitsStray(moves, i, k)
  {
    if i, k :| CommitsStray(moves, i, k) {
      if StillFailed(LifeAfter(Failing, moves[..i])) {
        StrayStays(moves, i, k);
        assert moves[..k + 1][..k] == moves[..k];
        assert !StillFailed(LifeAfter(Failing, moves[..k + 1]));
      }
    } else {
      forall n | 0 <= n <= |moves| ensures StillFailed(LifeAfter(Failing, moves[..n])) {
        NothingCommitted(moves, n);
      }
    }
  }

  lemma {:induction false} NothingCommitted(moves: seq<Move>, n: nat)
    requires n <= |moves| && !exists i, k :: CommitsStray(moves, i, k)
    ensures StillFailed(LifeAfter(Failing, moves[..n]))
  {
    if n > 0 {
      var k := n - 1;
      NothingCommitted(moves, k);
      assert moves[..n][..k] == moves[..k];
      if LifeAfter(Failing, moves[..k]).Deleted? {
        DeletedSince(moves[..k]);
        var i :| StraySince(moves[..k], i, k);
        assert StraySince(moves, i, k) && !CommitsStray(moves, i, k);
      }
    }
  }

  /** The id is failed on disk at every moment of the run. */
  ghost predicate FailedThroughout(st: Store, kind: bool, calls: seq<Call>, id: string) {
    forall n :: 0 <= n <= |calls| ==> StageOf(Run(st, kind, calls[..n]).committed, id) == FailedOnly
  }

  /** Over a whole run an id that has failed stays failed if and only if none of its stray deletions is committed. */
  lemma FailedIsLostIff(st: Store, kind: bool, calls: seq<Call>, id: string)
    requires Inv(st, kind) && st.Clean() && StageOf(st.committed, id) == FailedOnly
    ensures FailedThroughout(st, kind, calls, id) <==> !exists i, k :: CommitsStray(Moves(st, kind, calls, id), i, k)
  {
    var moves := Moves(st, kind, calls, id);
    if FailedThroughout(st, kind, calls, id) {
      forall n | 0 <= n <= |moves| ensures StillFailed(LifeAfter(Failing, moves[..n])) {
        FailedAt(st, kind, calls, id, n, moves);
      }
    } else {
      var n :| 0 <= n <= |calls| && StageOf(Run(st, kind, calls[..n]).committed, id) != FailedOnly;
      FailedAt(st, kind, calls, id, n, moves);
      assert !StillFailed(LifeAfter(Failing, moves[..n]));
    }
    FailedLasts(moves);
  }

  lemma FailedAt(st: Store, kind: bool, calls: seq<Call>, id: string, n: nat, moves: seq<Move>)
    requires Inv(st, kind) && st.Clean() && StageOf(st.committed, id) == FailedOnly
    requires n <= |calls| && moves == Moves(st, kind, calls, id)
    ensures StageOf(Run(st, kind, calls[..n]).committed, id) == FailedOnly
            <==> StillFailed(LifeAfter(Failing, moves[..n]))
  {
    LifeOfRun(st, kind, calls[..n], id);
    MovesOfPrefix(st, kind, calls, id, n);
  }

  /** Without stray deletions an id goes from absent to failed or usable, and a failed id stays failed. */
  lemma LifeOfAnId(st: Store, kind: bool, call: Call, id: string)
    requires Inv(st, kind) && st.Clean() && !StrayDelete(st, kind, call)
    ensures After(st, kind, call).Clean()
    ensures StageOf(st.committed, id).Absent?
            || StageOf(After(st, kind, call).committed, id) == StageOf(st.committed, id)
  {
    OnlyStrayDeletesStayPending(st, kind, call);
    LifeStep(st, kind, call, id);
    CleanLife(st, After(st, kind, call), id, MoveOf(st, kind, call, id));
  }

  lemma CleanLife(st: Store, st': Store, id: string, move: Move)
    requires st.Clean() && st'.Clean() && LifeOf(st', id) == NextLife(LifeOf(st, id), move)
    ensures StageOf(st.committed, id).Absent? || StageOf(st'.committed, id) == StageOf(st.committed, id)
  {}

  ghost predicate NoStrayDelete(st: Store, kind: bool, calls: seq<Call>) {
    forall i :: 0 <= i < |calls| ==> !StrayDelete(Run(st, kind, calls[..i]), kind, calls[i])
  }

  lemma {:induction false} LifeOverARun(st: Store, kind: bool, calls: seq<Call>, id: string)
    requires Inv(st, kind) && st.Clean() && NoStrayDelete(st, kind, calls)
    ensures Run(st, kind, calls).Clean()
    ensures StageOf(st.committed, id).Absent?
            || StageOf(Run(st, kind, calls).committed, id) == StageOf(st.committed, id)
  {
    if calls != [] {
      var front := calls[..|calls| - 1];
      assert forall i :: 0 <= i < |front| ==> front[..i] == calls[..i];
      LifeOverARun(st, kind, front, id);
      EveryRunKeeps(st, kind, front);
      LifeOfAnId(Run(st, kind, front), kind, calls[|calls| - 1], id);
    }
  }

  /** From every clean state a stray deletion lets the next recording of that id make it usable. */
  lemma StrayDeleteForgetsAFailure(st: Store, kind: bool, stray: Call, c: Content)
    requires Inv(st, kind) && st.Clean() && StrayDelete(st, kind, stray)
    ensures StageOf(st.committed, stray.id) == FailedOnly
    ensures var st' := After(After(st, kind, stray), kind, Record(stray.id, kind, c, true, NoFault));
            StageOf(st'.committed, stray.id) == Settled
  {
    assert RowSound(st.working, kind, stray.id);
    CallKeeps(st, kind, stray);
    LifeStep(st, kind, stray, stray.id);
    LifeStep(After(st, kind, stray), kind, Record(stray.id, kind, c, true, NoFault), stray.id);
  }

  /** And from every clean state any other call that commits makes the id unknown again. */
  lemma StrayDeleteLosesAFailure(st: Store, kind: bool, stray: Call, call: Call)
    requires Inv(st, kind) && st.Clean() && StrayDelete(st, kind, stray) && !IsAbout(call, stray.id)
    ensures StageOf(After(After(st, kind, stray), kind, call).committed, stray.id).Absent?
            <==> EffectOf(After(st, kind, stray), kind, call).Commits?
  {
    assert RowSound(st.working, kind, stray.id);
    CallKeeps(st, kind, stray);
    LifeStep(st, kind, stray, stray.id);
    LifeStep(After(st, kind, stray), kind, call, stray.id);
  }

  /** One such history of three calls from the empty database. */
  lemma FailureForgottenFromEmpty(kind: bool, id: string, error: string, c: Content)
    ensures var fail := Failure(id, kind, 0, error, true, NoFault);
            var stray := Failure(id, kind, 1, error, false, NoFault);
            var record := Record(id, kind, c, true, NoFault);
            && StageOf(Run(Store(EMPTY, EMPTY), kind, [fail, stray]).committed, id) == FailedOnly
            && StageOf(Run(Store(EMPTY, EMPTY), kind, [fail, stray, record]).committed, id) == Settled
  {
    var fail, stray, record :=
      Failure(id, kind, 0, error, true, NoFault), Failure(id, kind, 1, error, false, NoFault),
        Record(id, kind, c, true, NoFault);
    var st := Store(EMPTY, EMPTY);
    assert [fail, stray, record][..2] == [fail, stray] && [fail, stray][..1] == [fail] && [fail][..0] == [];
    var s1 := After(st, kind, fail);
    assert Run(st, kind, []) == st && Run(st, kind, [fail]) == s1;
    EmptyIsSound(kind);
    CallKeeps(st, kind, fail);
    StrayDeleteForgetsAFailure(s1, kind, stray, c);
  }
}
