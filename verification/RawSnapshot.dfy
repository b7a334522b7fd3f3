/**
 * One pass over a raw option payload (data/raw_snapshot.py): which observations are kept when
 * the same contract or underlying appears more than once. Reading the single fields of a row is
 * not modelled: a side of a row comes in read or refused.
 */
module RawSnapshots {
  import opened Common

  datatype Cell = Absent | Number(value: real) | Text(text: string) | Invalid(reason: string)

  /** An observation with everything its signature compares: contract terms, values and invalid fields. */
  datatype Quote = Quote(insCode: string, terms: seq<Cell>, values: seq<Cell>, invalidFields: seq<string>)

  /** Recognised by its symbol; the payload may give a stable code of its own. */
  datatype Underlying = Underlying(
    symbol: string, insCode: Option<string>, values: seq<Cell>, invalidFields: seq<string>)

  datatype Side = Good(quote: Quote) | Bad(reason: string, insCode: Option<string>)

  datatype Row = NotDict | Dict(underlying: Option<Underlying>, call: Side, put: Side)

  datatype Place = WholeRow | CallSide | PutSide | BaseSide

  datatype RejectedRow = RejectedRow(row: int, place: Place, reason: string)

  datatype Kind = OfContract | OfUnderlying

  datatype Conflict = Conflict(kind: Kind, key: string, row: int, place: Place)

  datatype Result = Result(
    quotes: seq<Quote>, underlyings: seq<Underlying>, rejected: seq<RejectedRow>, conflicts: seq<Conflict>,
    duplicateCount: int, rowCount: int)

  // ---- What the rows say ---------------------------------------------------------------------

  function SidesOf(row: Row): seq<Side> { if row.Dict? then [row.call, row.put] else [] }

  function Sides(rows: seq<Row>): seq<Side> {
    if rows == [] then [] else Sides(rows[..|rows| - 1]) + SidesOf(rows[|rows| - 1])
  }

  function Given(underlying: Option<Underlying>): seq<Underlying> {
    if underlying.Some? then [underlying.value] else []
  }

  function BasesOf(row: Row): seq<Underlying> { if row.Dict? then Given(row.underlying) else [] }

  function Bases(rows: seq<Row>): seq<Underlying> {
    if rows == [] then [] else Bases(rows[..|rows| - 1]) + BasesOf(rows[|rows| - 1])
  }

  function DictRows(rows: seq<Row>): nat {
    if rows == [] then 0 else DictRows(rows[..|rows| - 1]) + if rows[|rows| - 1].Dict? then 1 else 0
  }

  /** The contract was read somewhere, and every time with the same values. */
  ghost predicate Uncontested(sides: seq<Side>, q: Quote) {
    Good(q) in sides && forall s :: s in sides && s.Good? && s.quote.insCode == q.insCode ==> s.quote == q
  }

  ghost predicate UncontestedBase(bases: seq<Underlying>, u: Underlying) {
    u in bases && forall b :: b in bases && b.symbol == u.symbol ==> b == u
  }

  function CountAt(rejected: seq<RejectedRow>, whole: bool): nat {
    if rejected == [] then 0
    else CountAt(rejected[..|rejected| - 1], whole) + if rejected[|rejected| - 1].place.WholeRow? == whole then 1 else 0
  }

  function CountKind(conflicts: seq<Conflict>, kind: Kind): nat {
    if conflicts == [] then 0
    else CountKind(conflicts[..|conflicts| - 1], kind) + if conflicts[|conflicts| - 1].kind == kind then 1 else 0
  }

  lemma CountAtAppend(rejected: seq<RejectedRow>, r: RejectedRow, whole: bool)
    ensures CountAt(rejected + [r], whole) == CountAt(rejected, whole) + if r.place.WholeRow? == whole then 1 else 0
  {
    assert (rejected + [r])[..|rejected|] == rejected;
  }

  lemma CountKindAppend(conflicts: seq<Conflict>, c: Conflict, kind: Kind)
    ensures CountKind(conflicts + [c], kind) == CountKind(conflicts, kind) + if c.kind == kind then 1 else 0
  {
    assert (conflicts + [c])[..|conflicts|] == conflicts;
  }

  // ---- Dropping the contested ones -------------------------------------------------------------

  function Codes(quotes: seq<Quote>): set<string> { set i | 0 <= i < |quotes| :: quotes[i].insCode }

  ghost predicate Distinct(quotes: seq<Quote>) {
    forall i, j :: 0 <= i < j < |quotes| ==> quotes[i].insCode != quotes[j].insCode
  }

  function Without(quotes: seq<Quote>, dropped: set<string>): (r: seq<Quote>)
    ensures forall q :: q in r <==> q in quotes && q.insCode !in dropped
    ensures Distinct(quotes) ==> Distinct(r)
  {
    if quotes == [] then []
    else
      var front, last := quotes[..|quotes| - 1], quotes[|quotes| - 1];
      assert quotes == front + [last];
      var r := Without(front, dropped);
      assert Distinct(quotes) ==> forall q :: q in r ==> q.insCode != last.insCode;
      if last.insCode in dropped then r else r + [last]
  }

  lemma {:induction false} WithoutCounts(quotes: seq<Quote>, dropped: set<string>)
    requires Distinct(quotes) && dropped <= Codes(quotes)
    ensures |Without(quotes, dropped)| + |dropped| == |quotes|
  {
    if quotes == [] {
      assert dropped == {};
    } else {
      var front, last := quotes[..|quotes| - 1], quotes[|quotes| - 1];
      var rest := dropped - {last.insCode};
      forall k | k in rest ensures k in Codes(front) {
        var i :| 0 <= i < |quotes| && quotes[i].insCode == k;
        assert front[i].insCode == k;
      }
      WithoutCounts(front, rest);
      SameWithout(front, dropped, rest);
      assert last.insCode in dropped ==> dropped == rest + {last.insCode};
      assert last.insCode !in dropped ==> dropped == rest;
    }
  }

  lemma {:induction false} SameWithout(quotes: seq<Quote>, a: set<string>, b: set<string>)
    requires forall q :: q in quotes ==> (q.insCode in a <==> q.insCode in b)
    ensures Without(quotes, a) == Without(quotes, b)
  {
    if quotes != [] {
      assert quotes[|quotes| - 1] in quotes;
      forall q | q in quotes[..|quotes| - 1] ensures q in quotes {}
      SameWithout(quotes[..|quotes| - 1], a, b);
    }
  }

  ghost predicate DistinctSymbols(bases: seq<Underlying>) {
    forall i, j :: 0 <= i < j < |bases| ==> bases[i].symbol != bases[j].symbol
  }

  function WithoutBases(bases: seq<Underlying>, dropped: set<string>): (r: seq<Underlying>)
    ensures forall u :: u in r <==> u in bases && u.symbol !in dropped
    ensures DistinctSymbols(bases) ==> DistinctSymbols(r)
  {
    if bases == [] then []
    else
      var front, last := bases[..|bases| - 1], bases[|bases| - 1];
      assert bases == front + [last];
      var r := WithoutBases(front, dropped);
      assert DistinctSymbols(bases) ==> forall u :: u in r ==> u.symbol != last.symbol;
      if last.symbol in dropped then r else r + [last]
  }

  // ---- What the pass knows -----------------------------------------------------------------------

  type Seen = map<string, (int, Quote)>

  /** Some side read this contract with other values. */
  ghost predicate Contested(sides: seq<Side>, q: Quote) {
    exists s :: s in sides && s.Good? && s.quote.insCode == q.insCode && s.quote != q
  }

  /** `seen` holds a first reading of every contract, `conflicted` the contested ones. */
  ghost predicate Tracked(sides: seq<Side>, seen: Seen, conflicted: set<string>) {
    && (forall s :: s in sides && s.Good? ==> s.quote.insCode in seen)
    && (forall k :: k in seen ==> seen[k].1.insCode == k && Good(seen[k].1) in sides)
    && (forall k :: k in conflicted <==> k in seen && Contested(sides, seen[k].1))
  }

  ghost predicate Collected(quotes: seq<Quote>, seen: Seen) {
    && Distinct(quotes)
    && (forall q :: q in quotes ==> q.insCode in seen && seen[q.insCode].1 == q)
    && (forall k :: k in seen ==> seen[k].1 in quotes)
  }

  lemma ContestedAppend(sides: seq<Side>, side: Side, q: Quote)
    ensures Contested(sides + [side], q)
            <==> Contested(sides, q) || (side.Good? && side.quote.insCode == q.insCode && side.quote != q)
  {
    assert forall s :: s in sides + [side] <==> s in sides || s == side;
  }

  /** Every reading but the first of a contract leaves what is known, except that it may contradict. */
  lemma TrackLater(sides: seq<Side>, side: Side, seen: Seen, conflicted: set<string>)
    requires Tracked(sides, seen, conflicted) && (side.Good? ==> side.quote.insCode in seen)
    ensures var contradicts := side.Good? && seen[side.quote.insCode].1 != side.quote;
            Tracked(sides + [side], seen, if contradicts then conflicted + {side.quote.insCode} else conflicted)
  {
    assert forall s :: s in sides + [side] <==> s in sides || s == side;
    forall k | k in seen
      ensures Contested(sides + [side], seen[k].1)
              <==> Contested(sides, seen[k].1) || (side.Good? && side.quote.insCode == k && side.quote != seen[k].1)
    {
      ContestedAppend(sides, side, seen[k].1);
    }
  }

  lemma TrackFirst(sides: seq<Side>, q: Quote, index: int, seen: Seen, conflicted: set<string>)
    requires Tracked(sides, seen, conflicted) && q.insCode !in seen
    ensures Tracked(sides + [Good(q)], seen[q.insCode := (index, q)], conflicted)
  {
    var seen', sides' := seen[q.insCode := (index, q)], sides + [Good(q)];
    assert forall s :: s in sides' <==> s in sides || s == Good(q);
    forall k | k in seen' ensures Contested(sides', seen'[k].1) <==> k in seen && Contested(sides, seen[k].1) {
      ContestedAppend(sides, Good(q), seen'[k].1);
    }
  }

  lemma CollectFirst(quotes: seq<Quote>, q: Quote, index: int, seen: Seen)
    requires Collected(quotes, seen) && q.insCode !in seen
    ensures Collected(quotes + [q], seen[q.insCode := (index, q)])
  {
    assert forall x :: x in quotes + [q] <==> x in quotes || x == q;
    forall i | 0 <= i < |quotes| ensures quotes[i].insCode != q.insCode {
      assert quotes[i] in quotes;
    }
  }

  /** After the pass: what is collected and not contested is exactly what nobody contradicts. */
  lemma KeptAreUncontested(sides: seq<Side>, quotes: seq<Quote>, seen: Seen, conflicted: set<string>, q: Quote)
    requires Tracked(sides, seen, conflicted) && Collected(quotes, seen)
    ensures q in Without(quotes, conflicted) <==> Uncontested(sides, q)
  {
    if q in quotes && !Contested(sides, q) {
      assert Uncontested(sides, q);
    }
    if Uncontested(sides, q) {
      assert seen[q.insCode].1 == q;
    }
  }

  lemma ConflictedAreCodes(sides: seq<Side>, quotes: seq<Quote>, seen: Seen, conflicted: set<string>)
    requires Tracked(sides, seen, conflicted) && Collected(quotes, seen)
    ensures conflicted <= Codes(quotes)
  {
    forall k | k in conflicted ensures k in Codes(quotes) {
      var i :| 0 <= i < |quotes| && quotes[i] == seen[k].1;
    }
  }

  type SeenBases = map<string, Underlying>

  ghost predicate ContestedBase(bases: seq<Underlying>, u: Underlying) {
    exists b :: b in bases && b.symbol == u.symbol && b != u
  }

  ghost predicate BasesTracked(
    bases: seq<Underlying>, underlyings: seq<Underlying>, seen: SeenBases, conflicted: set<string>) {
    && DistinctSymbols(underlyings) && (forall b :: b in bases ==> b.symbol in seen)
    && (forall k :: k in seen ==> seen[k].symbol == k && seen[k] in bases && seen[k] in underlyings)
    && (forall u :: u in underlyings ==> u.symbol in seen && seen[u.symbol] == u)
    && (forall k :: k in conflicted <==> k in seen && ContestedBase(bases, seen[k]))
  }

  lemma ContestedBaseAppend(bases: seq<Underlying>, b: Underlying, u: Underlying)
    ensures ContestedBase(bases + [b], u) <==> ContestedBase(bases, u) || (b.symbol == u.symbol && b != u)
  {
    assert forall x :: x in bases + [b] <==> x in bases || x == b;
  }

  lemma TrackLaterBase(
    bases: seq<Underlying>, b: Underlying, us: seq<Underlying>, seen: SeenBases, conflicted: set<string>)
    requires BasesTracked(bases, us, seen, conflicted) && b.symbol in seen
    ensures BasesTracked(bases + [b], us, seen, if seen[b.symbol] != b then conflicted + {b.symbol} else conflicted)
  {
    assert forall x :: x in bases + [b] <==> x in bases || x == b;
    forall k | k in seen
      ensures ContestedBase(bases + [b], seen[k]) <==> ContestedBase(bases, seen[k]) || (b.symbol == k && b != seen[k])
    {
      ContestedBaseAppend(bases, b, seen[k]);
    }
  }

  lemma TrackFirstBase(
    bases: seq<Underlying>, b: Underlying, us: seq<Underlying>, seen: SeenBases, conflicted: set<string>)
    requires BasesTracked(bases, us, seen, conflicted) && b.symbol !in seen
    ensures BasesTracked(bases + [b], us + [b], seen[b.symbol := b], conflicted)
  {
    var seen' := seen[b.symbol := b];
    assert forall x :: x in bases + [b] <==> x in bases || x == b;
    assert forall x :: x in us + [b] <==> x in us || x == b;
    forall i | 0 <= i < |us| ensures us[i].symbol != b.symbol {
      assert us[i] in us;
    }
    forall k | k in seen' ensures ContestedBase(bases + [b], seen'[k]) <==> k in seen && ContestedBase(bases, seen[k]) {
      ContestedBaseAppend(bases, b, seen'[k]);
    }
  }

  lemma KeptBasesAreUncontested(
    bases: seq<Underlying>, us: seq<Underlying>, seen: SeenBases, conflicted: set<string>, u: Underlying)
    requires BasesTracked(bases, us, seen, conflicted)
    ensures u in WithoutBases(us, conflicted) <==> UncontestedBase(bases, u)
  {
    if u in us && !ContestedBase(bases, u) {
      assert UncontestedBase(bases, u);
    }
    if UncontestedBase(bases, u) {
      assert seen[u.symbol] == u;
    }
  }

  /** The reported conflicts name exactly the contested keys. */
  ghost predicate Named(conflicts: seq<Conflict>, kind: Kind, keys: set<string>) {
    && (forall c :: c in conflicts && c.kind == kind ==> c.key in keys)
    && (forall k :: k in keys ==> exists c :: c in conflicts && c.kind == kind && c.key == k)
  }

  lemma NamedAppend(conflicts: seq<Conflict>, c: Conflict, kind: Kind, keys: set<string>)
    requires Named(conflicts, kind, keys)
    ensures Named(conflicts + [c], kind, if c.kind == kind then keys + {c.key} else keys)
  {
    assert forall x :: x in conflicts + [c] <==> x in conflicts || x == c;
  }

  // ---- One step of the pass ------------------------------------------------------------------------

  datatype State = State(
    quotes: seq<Quote>, underlyings: seq<Underlying>, rejected: seq<RejectedRow>, conflicts: seq<Conflict>,
    duplicates: int,
    seen: Seen, conflicted: set<string>, seenBases: SeenBases, conflictedBases: set<string>)

  const START := State([], [], [], [], 0, map[], {}, map[], {})

  function AddSide(st: State, side: Side, index: int, place: Place): State {
    if side.Bad? then st.(rejected := st.rejected + [RejectedRow(index, place, side.reason)])
    else
      var key, quote := side.quote.insCode, side.quote;
      if key !in st.seen then st.(seen := st.seen[key := (index, quote)], quotes := st.quotes + [quote])
      else if st.seen[key].1 == quote then st.(duplicates := st.duplicates + 1)
      else if key in st.conflicted then st.(conflicts := st.conflicts + [Conflict(OfContract, key, index, place)])
      else
        st.(conflicted := st.conflicted + {key},
            conflicts := st.conflicts + [Conflict(OfContract, key, st.seen[key].0, place)]
                         + [Conflict(OfContract, key, index, place)])
  }

  function AddUnderlying(st: State, underlying: Option<Underlying>, index: int): State {
    if underlying.None? then st
    else
      var u := underlying.value;
      if u.symbol !in st.seenBases then
        st.(seenBases := st.seenBases[u.symbol := u], underlyings := st.underlyings + [u])
      else if st.seenBases[u.symbol] == u || u.symbol in st.conflictedBases then st
      else
        st.(conflictedBases := st.conflictedBases + {u.symbol},
            conflicts := st.conflicts + [Conflict(OfUnderlying, u.symbol, index, BaseSide)])
  }

  function AddRow(st: State, row: Row, index: int): State {
    match row
    case NotDict => st.(rejected := st.rejected + [RejectedRow(index, WholeRow, "row is not a dictionary")])
    case Dict(underlying, call, put) =>
      AddSide(AddSide(AddUnderlying(st, underlying, index), call, index, CallSide), put, index, PutSide)
  }

  /** The contested ones leave the lists at the end. */
  function Finish(st: State, rowCount: int): Result {
    Result(
      Without(st.quotes, st.conflicted), WithoutBases(st.underlyings, st.conflictedBases), st.rejected, st.conflicts,
      st.duplicates, rowCount)
  }

  /** The lists and dictionaries that the pass fills in place. */
  class Collector {
    var quotes: seq<Quote>
    var underlyings: seq<Underlying>
    var rejected: seq<RejectedRow>
    var conflicts: seq<Conflict>
    var duplicateCount: int
    var seen: Seen
    var conflicted: set<string>
    var seenBases: SeenBases
    var conflictedBases: set<string>

    constructor ()
      ensures Contents() == START
    {
      quotes, underlyings, rejected, conflicts, duplicateCount := [], [], [], [], 0;
      seen, conflicted, seenBases, conflictedBases := map[], {}, map[], {};
    }

    function Contents(): State
      reads this
    {
      State(quotes, underlyings, rejected, conflicts, duplicateCount, seen, conflicted, seenBases, conflictedBases)
    }

    method CollectSide(side: Side, index: int, place: Place)
      modifies this
      ensures Contents() == AddSide(old(Contents()), side, index, place)
    {
      if side.Bad? {
        rejected := rejected + [RejectedRow(index, place, side.reason)];
        return;
      }
      var key, quote := side.quote.insCode, side.quote;
      if key !in seen {
        seen, quotes := seen[key := (index, quote)], quotes + [quote];
        return;
      }
      if seen[key].1 == quote {
        duplicateCount := duplicateCount + 1;
        return;
      }
      if key !in conflicted {
        conflicted := conflicted + {key};
        conflicts := conflicts + [Conflict(OfContract, key, seen[key].0, place)];
      }
      conflicts := conflicts + [Conflict(OfContract, key, index, place)];
    }

    method CollectUnderlying(underlying: Option<Underlying>, index: int)
      modifies this
      ensures Contents() == AddUnderlying(old(Contents()), underlying, index)
    {
      if underlying.None? {
        return;
      }
      var u := underlying.value;
      if u.symbol !in seenBases {
        seenBases, underlyings := seenBases[u.symbol := u], underlyings + [u];
        return;
      }
      if seenBases[u.symbol] == u {
        return;
      }
      if u.symbol !in conflictedBases {
        conflictedBases := conflictedBases + {u.symbol};
        conflicts := conflicts + [Conflict(OfUnderlying, u.symbol, index, BaseSide)];
      }
    }

    method CollectRow(row: Row, index: int)
      modifies this
      ensures Contents() == AddRow(old(Contents()), row, index)
    {
      match row
      case NotDict =>
        rejected := rejected + [RejectedRow(index, WholeRow, "row is not a dictionary")];
      case Dict(underlying, call, put) =>
        CollectUnderlying(underlying, index);
        CollectSide(call, index, CallSide);
        CollectSide(put, index, PutSide);
    }
  }

  // ---- What every pass knows and counts --------------------------------------------------------------

  lemma SideIsTracked(st: State, sides: seq<Side>, side: Side, index: int, place: Place)
    requires Tracked(sides, st.seen, st.conflicted) && Collected(st.quotes, st.seen)
    ensures var after := AddSide(st, side, index, place);
            Tracked(sides + [side], after.seen, after.conflicted) && Collected(after.quotes, after.seen)
  {
    if side.Good? && side.quote.insCode !in st.seen {
      TrackFirst(sides, side.quote, index, st.seen, st.conflicted);
      CollectFirst(st.quotes, side.quote, index, st.seen);
    } else {
      TrackLater(sides, side, st.seen, st.conflicted);
      assert side.Good? && side.quote.insCode in st.conflicted
             ==> st.conflicted + {side.quote.insCode} == st.conflicted;
    }
  }

  lemma UnderlyingIsTracked(st: State, bases: seq<Underlying>, underlying: Option<Underlying>, index: int)
    requires BasesTracked(bases, st.underlyings, st.seenBases, st.conflictedBases)
    ensures var after := AddUnderlying(st, underlying, index);
            BasesTracked(bases + Given(underlying), after.underlyings, after.seenBases, after.conflictedBases)
  {
    if underlying.None? {
      assert bases + [] == bases;
    } else if underlying.value.symbol !in st.seenBases {
      TrackFirstBase(bases, underlying.value, st.underlyings, st.seenBases, st.conflictedBases);
    } else {
      var symbol := underlying.value.symbol;
      TrackLaterBase(bases, underlying.value, st.underlyings, st.seenBases, st.conflictedBases);
      assert symbol in st.conflictedBases ==> st.conflictedBases + {symbol} == st.conflictedBases;
    }
  }

  /** Every side is a first reading, a repeat, a contradiction or a rejection. */
  ghost predicate Counted(st: State, rows: int, sides: int) {
    && sides + |st.conflicted|
       == CountAt(st.rejected, false) + |st.quotes| + st.duplicates + CountKind(st.conflicts, OfContract)
    && CountKind(st.conflicts, OfUnderlying) == |st.conflictedBases|
    && rows == CountAt(st.rejected, true)
  }

  lemma ContradictionIsCounted(conflicts: seq<Conflict>, key: string, first: int, index: int, place: Place, kind: Kind)
    ensures var once := conflicts + [Conflict(OfContract, key, index, place)];
            var twice := conflicts + [Conflict(OfContract, key, first, place)]
                         + [Conflict(OfContract, key, index, place)];
            && CountKind(once, kind) == CountKind(conflicts, kind) + (if kind.OfContract? then 1 else 0)
            && CountKind(twice, kind) == CountKind(conflicts, kind) + (if kind.OfContract? then 2 else 0)
  {
    var c, d := Conflict(OfContract, key, first, place), Conflict(OfContract, key, index, place);
    CountKindAppend(conflicts, d, kind);
    CountKindAppend(conflicts, c, kind);
    CountKindAppend(conflicts + [c], d, kind);
  }

  lemma SideIsCounted(st: State, rows: int, sides: int, side: Side, index: int, place: Place)
    requires Counted(st, rows, sides) && !place.WholeRow?
    ensures Counted(AddSide(st, side, index, place), rows, sides + 1)
  {
    if side.Bad? {
      CountAtAppend(st.rejected, RejectedRow(index, place, side.reason), true);
      CountAtAppend(st.rejected, RejectedRow(index, place, side.reason), false);
    } else if side.quote.insCode in st.seen && st.seen[side.quote.insCode].1 != side.quote {
      assert side.quote.insCode in st.conflicted ==> st.conflicted + {side.quote.insCode} == st.conflicted;
      AccusationIsCounted(st, rows, sides, side.quote.insCode, index, place, AddSide(st, side, index, place));
    }
  }

  lemma AccusationIsCounted(st: State, rows: int, sides: int, key: string, index: int, place: Place, after: State)
    requires Counted(st, rows, sides) && key in st.seen
    requires after == st.(conflicted := st.conflicted + {key}, conflicts := after.conflicts)
    requires after.conflicts
          == (if key in st.conflicted then st.conflicts
              else st.conflicts + [Conflict(OfContract, key, st.seen[key].0, place)])
             + [Conflict(OfContract, key, index, place)]
    ensures Counted(after, rows, sides + 1)
  {
    ContradictionIsCounted(st.conflicts, key, st.seen[key].0, index, place, OfContract);
    ContradictionIsCounted(st.conflicts, key, st.seen[key].0, index, place, OfUnderlying);
    if key in st.conflicted {
      assert st.conflicted + {key} == st.conflicted;
    }
  }

  lemma BaseAccusationIsCounted(st: State, rows: int, sides: int, c: Conflict, after: State)
    requires Counted(st, rows, sides) && c.kind.OfUnderlying? && c.key !in st.conflictedBases
    requires after == st.(conflictedBases := st.conflictedBases + {c.key}, conflicts := st.conflicts + [c])
    ensures Counted(after, rows, sides)
  {
    CountKindAppend(st.conflicts, c, OfContract);
    CountKindAppend(st.conflicts, c, OfUnderlying);
  }

  lemma UnderlyingIsCounted(st: State, rows: int, sides: int, underlying: Option<Underlying>, index: int)
    requires Counted(st, rows, sides)
    ensures Counted(AddUnderlying(st, underlying, index), rows, sides)
  {
    var after := AddUnderlying(st, underlying, index);
    if after.conflicts != st.conflicts {
      BaseAccusationIsCounted(
        st, rows, sides, Conflict(OfUnderlying, underlying.value.symbol, index, BaseSide), after);
    }
  }

  ghost predicate Reported(st: State) {
    Named(st.conflicts, OfContract, st.conflicted) && Named(st.conflicts, OfUnderlying, st.conflictedBases)
  }

  lemma SideIsReported(st: State, side: Side, index: int, place: Place)
    requires Reported(st)
    ensures Reported(AddSide(st, side, index, place))
  {
    if side.Good? && side.quote.insCode in st.seen {
      var key := side.quote.insCode;
      var first, second := Conflict(OfContract, key, st.seen[key].0, place), Conflict(OfContract, key, index, place);
      assert key in st.conflicted ==> st.conflicted + {key} == st.conflicted;
      assert st.conflicted + {key} + {key} == st.conflicted + {key};
      NamedAppend(st.conflicts, second, OfContract, st.conflicted);
      NamedAppend(st.conflicts, second, OfUnderlying, st.conflictedBases);
      NamedAppend(st.conflicts, first, OfContract, st.conflicted);
      NamedAppend(st.conflicts, first, OfUnderlying, st.conflictedBases);
      NamedAppend(st.conflicts + [first], second, OfContract, st.conflicted + {key});
      NamedAppend(st.conflicts + [first], second, OfUnderlying, st.conflictedBases);
    }
  }

  lemma UnderlyingIsReported(st: State, underlying: Option<Underlying>, index: int)
    requires Reported(st)
    ensures Reported(AddUnderlying(st, underlying, index))
  {
    if underlying.Some? {
      var c := Conflict(OfUnderlying, underlying.value.symbol, index, BaseSide);
      NamedAppend(st.conflicts, c, OfContract, st.conflicted);
      NamedAppend(st.conflicts, c, OfUnderlying, st.conflictedBases);
    }
  }

  ghost predicate Sound(st: State, rows: seq<Row>) {
    && Tracked(Sides(rows), st.seen, st.conflicted) && Collected(st.quotes, st.seen)
    && BasesTracked(Bases(rows), st.underlyings, st.seenBases, st.conflictedBases)
    && Counted(st, |rows| - DictRows(rows), 2 * DictRows(rows)) && Reported(st)
  }

  lemma StartIsSound()
    ensures Sound(START, [])
  {}

  lemma BadRowIsSound(st: State, front: seq<Row>, row: Row, i: int, rows: seq<Row>)
    requires Sound(st, front) && row.NotDict? && rows != [] && front == rows[..|rows| - 1] && row == rows[|rows| - 1]
    ensures Sound(AddRow(st, row, i), rows)
  {
    var r := RejectedRow(i, WholeRow, "row is not a dictionary");
    CountAtAppend(st.rejected, r, true);
    CountAtAppend(st.rejected, r, false);
    assert Sides(rows) == Sides(front) && Bases(rows) == Bases(front);
  }

  lemma SideLeavesBases(st: State, side: Side, index: int, place: Place)
    ensures var after := AddSide(st, side, index, place);
            && after.underlyings == st.underlyings && after.seenBases == st.seenBases
               && after.conflictedBases == st.conflictedBases
  {}

  lemma UnderlyingLeavesSides(st: State, underlying: Option<Underlying>, index: int)
    ensures var after := AddUnderlying(st, underlying, index);
            && after.quotes == st.quotes && after.seen == st.seen && after.conflicted == st.conflicted
  {}

  lemma RowIsTracked(
    st: State, row: Row, i: int, a: State, b: State, c: State, sides: seq<Side>, bases: seq<Underlying>)
    requires row.Dict? && Tracked(sides, st.seen, st.conflicted) && Collected(st.quotes, st.seen)
    requires BasesTracked(bases, st.underlyings, st.seenBases, st.conflictedBases)
    requires a == AddUnderlying(st, row.underlying, i) && b == AddSide(a, row.call, i, CallSide)
             && c == AddSide(b, row.put, i, PutSide)
    ensures Tracked(sides + [row.call] + [row.put], c.seen, c.conflicted) && Collected(c.quotes, c.seen)
    ensures BasesTracked(bases + Given(row.underlying), c.underlyings, c.seenBases, c.conflictedBases)
  {
    UnderlyingIsTracked(st, bases, row.underlying, i);
    UnderlyingLeavesSides(st, row.underlying, i);
    SideIsTracked(a, sides, row.call, i, CallSide);
    SideLeavesBases(a, row.call, i, CallSide);
    SideIsTracked(b, sides + [row.call], row.put, i, PutSide);
    SideLeavesBases(b, row.put, i, PutSide);
  }

  lemma RowIsCounted(st: State, row: Row, i: int, a: State, b: State, c: State, rejects: int, sides: int)
    requires row.Dict? && Counted(st, rejects, sides) && Reported(st)
    requires a == AddUnderlying(st, row.underlying, i) && b == AddSide(a, row.call, i, CallSide)
             && c == AddSide(b, row.put, i, PutSide)
    ensures Counted(c, rejects, sides + 2) && Reported(c)
  {
    UnderlyingIsCounted(st, rejects, sides, row.underlying, i);
    SideIsCounted(a, rejects, sides, row.call, i, CallSide);
    SideIsCounted(b, rejects, sides + 1, row.put, i, PutSide);
    UnderlyingIsReported(st, row.underlying, i);
    SideIsReported(a, row.call, i, CallSide);
    SideIsReported(b, row.put, i, PutSide);
  }

  lemma RowIsSound(st: State, front: seq<Row>, row: Row, i: int, rows: seq<Row>)
    requires Sound(st, front) && row.Dict? && rows != [] && front == rows[..|rows| - 1] && row == rows[|rows| - 1]
    ensures Sound(AddRow(st, row, i), rows)
  {
    var a := AddUnderlying(st, row.underlying, i);
    var b := AddSide(a, row.call, i, CallSide);
    var c := AddSide(b, row.put, i, PutSide);
    RowIsTracked(st, row, i, a, b, c, Sides(front), Bases(front));
    RowIsCounted(st, row, i, a, b, c, |front| - DictRows(front), 2 * DictRows(front));
    assert Sides(rows) == Sides(front) + [row.call] + [row.put];
    assert Bases(rows) == Bases(front) + BasesOf(row);
    assert c == AddRow(st, row, i);
  }

  // ---- Where things were read ---------------------------------------------------------------------

  function SideRefusal(side: Side, index: int, place: Place): seq<RejectedRow> {
    if side.Bad? then [RejectedRow(index, place, side.reason)] else []
  }

  /** What of a row cannot be read: all of it, or its call, or its put. */
  function RowRefusals(row: Row, index: int): seq<RejectedRow> {
    if row.NotDict? then [RejectedRow(index, WholeRow, "row is not a dictionary")]
    else SideRefusal(row.call, index, CallSide) + SideRefusal(row.put, index, PutSide)
  }

  function Refusals(rows: seq<Row>): seq<RejectedRow> {
    if rows == [] then [] else Refusals(rows[..|rows| - 1]) + RowRefusals(rows[|rows| - 1], |rows| - 1)
  }

  /** This row gives a reading of the contract. */
  predicate ReadIn(rows: seq<Row>, index: int, key: string) {
    && 0 <= index < |rows| && rows[index].Dict?
    && ((rows[index].call.Good? && rows[index].call.quote.insCode == key)
        || (rows[index].put.Good? && rows[index].put.quote.insCode == key))
  }

  predicate BaseIn(rows: seq<Row>, index: int, symbol: string) {
    && 0 <= index < |rows| && rows[index].Dict? && rows[index].underlying.Some?
    && rows[index].underlying.value.symbol == symbol
  }

  predicate ConflictIn(rows: seq<Row>, c: Conflict) {
    if c.kind.OfContract? then ReadIn(rows, c.row, c.key) else BaseIn(rows, c.row, c.key)
  }

  /** Every conflict names a row that has a reading of the contract, or a value of the underlying. */
  ghost predicate Placed(conflicts: seq<Conflict>, rows: seq<Row>) {
    forall i :: 0 <= i < |conflicts| ==> ConflictIn(rows, conflicts[i])
  }

  ghost predicate Located(st: State, rows: seq<Row>) {
    Placed(st.conflicts, rows) && forall k :: k in st.seen ==> ReadIn(rows, st.seen[k].0, k)
  }

  lemma MoreRowsLocate(st: State, front: seq<Row>, rows: seq<Row>)
    requires Located(st, front) && front <= rows
    ensures Located(st, rows)
  {
    forall i | 0 <= i < |st.conflicts| ensures ConflictIn(rows, st.conflicts[i]) {
      assert ConflictIn(front, st.conflicts[i]);
    }
  }

  lemma SideIsLocated(st: State, side: Side, index: int, place: Place, rows: seq<Row>)
    requires Located(st, rows) && (side.Good? ==> ReadIn(rows, index, side.quote.insCode))
    ensures Located(AddSide(st, side, index, place), rows)
    ensures AddSide(st, side, index, place).rejected == st.rejected + SideRefusal(side, index, place)
  {}

  lemma UnderlyingIsLocated(st: State, underlying: Option<Underlying>, index: int, rows: seq<Row>)
    requires Located(st, rows) && (underlying.Some? ==> BaseIn(rows, index, underlying.value.symbol))
    ensures Located(AddUnderlying(st, underlying, index), rows)
    ensures AddUnderlying(st, underlying, index).rejected == st.rejected
  {}

  lemma DictRowIsLocated(st: State, row: Row, i: int, rows: seq<Row>, a: State, b: State)
    requires Located(st, rows) && row.Dict? && 0 <= i < |rows| && rows[i] == row
    requires a == AddUnderlying(st, row.underlying, i) && b == AddSide(a, row.call, i, CallSide)
    ensures Located(AddSide(b, row.put, i, PutSide), rows)
    ensures AddSide(b, row.put, i, PutSide).rejected == st.rejected + RowRefusals(row, i)
  {
    UnderlyingIsLocated(st, row.underlying, i, rows);
    SideIsLocated(a, row.call, i, CallSide, rows);
    SideIsLocated(b, row.put, i, PutSide, rows);
  }

  lemma RowIsLocated(st: State, row: Row, i: int, rows: seq<Row>)
    requires Located(st, rows) && 0 <= i < |rows| && rows[i] == row
    ensures Located(AddRow(st, row, i), rows) && AddRow(st, row, i).rejected == st.rejected + RowRefusals(row, i)
  {
    if row.Dict? {
      var a := AddUnderlying(st, row.underlying, i);
      DictRowIsLocated(st, row, i, rows, a, AddSide(a, row.call, i, CallSide));
    }
  }

  /** The earlier of two contradicting readings is reported with the side of the later one. */
  lemma EarlierReadingIsMisplaced(q: Quote, other: Quote, st: State)
    requires q.insCode == other.insCode && q != other
    requires st == AddSide(AddSide(START, Good(q), 0, CallSide), Good(other), 1, PutSide)
    ensures st.conflicts == [Conflict(OfContract, q.insCode, 0, PutSide), Conflict(OfContract, q.insCode, 1, PutSide)]
  {}

  // ---- The result ----------------------------------------------------------------------------------

  lemma SoundAccounts(st: State, rows: seq<Row>)
    requires Sound(st, rows)
    ensures 2 * DictRows(rows)
         == |Without(st.quotes, st.conflicted)| + st.duplicates + CountKind(st.conflicts, OfContract)
            + CountAt(st.rejected, false)
    ensures |rows| == DictRows(rows) + CountAt(st.rejected, true)
  {
    ConflictedAreCodes(Sides(rows), st.quotes, st.seen, st.conflicted);
    WithoutCounts(st.quotes, st.conflicted);
  }

  ghost predicate Accused(conflicts: seq<Conflict>, k: string) {
    exists c :: c in conflicts && c.kind.OfContract? && c.key == k
  }

  lemma ConflictedMeans(sides: seq<Side>, seen: Seen, conflicted: set<string>, k: string)
    requires Tracked(sides, seen, conflicted)
    ensures k in conflicted <==> exists q :: Good(q) in sides && q.insCode == k && Contested(sides, q)
  {
    if k in conflicted {
      assert Good(seen[k].1) in sides;
    }
    if q :| Good(q) in sides && q.insCode == k && Contested(sides, q) {
      var s :| s in sides && s.Good? && s.quote.insCode == k && s.quote != q;
      assert Good(s.quote) in sides;
      assert q != seen[k].1 || s.quote != seen[k].1;
    }
  }

  lemma SoundNames(st: State, rows: seq<Row>, k: string)
    requires Sound(st, rows)
    ensures Accused(st.conflicts, k) <==>
      exists q :: Good(q) in Sides(rows) && q.insCode == k && Contested(Sides(rows), q)
  {
    ConflictedMeans(Sides(rows), st.seen, st.conflicted, k);
  }

  ghost predicate KeepsTheUncontested(quotes: seq<Quote>, sides: seq<Side>) {
    Distinct(quotes) && forall q :: q in quotes <==> Uncontested(sides, q)
  }

  ghost predicate KeepsTheUncontestedBases(underlyings: seq<Underlying>, bases: seq<Underlying>) {
    DistinctSymbols(underlyings) && forall u :: u in underlyings <==> UncontestedBase(bases, u)
  }

  ghost predicate AccusesTheContested(conflicts: seq<Conflict>, sides: seq<Side>) {
    forall k :: Accused(conflicts, k) <==> exists q :: Good(q) in sides && q.insCode == k && Contested(sides, q)
  }

  /** What the pass knows after these rows. */
  ghost predicate Read(st: State, rows: seq<Row>) {
    Sound(st, rows) && Located(st, rows) && st.rejected == Refusals(rows)
  }

  lemma StartIsRead(rows: seq<Row>)
    requires rows == []
    ensures Read(START, rows)
  {
    StartIsSound();
  }

  lemma RowIsRead(st: State, front: seq<Row>, row: Row, i: int, rows: seq<Row>)
    requires Read(st, front) && rows == front + [row] && i == |front|
    ensures Read(AddRow(st, row, i), rows)
  {
    assert rows[..|rows| - 1] == front;
    RowKeepsSound(st, front, row, i, rows);
    MoreRowsLocate(st, front, rows);
    RowIsLocated(st, row, i, rows);
  }

  lemma PrefixGrows(rows: seq<Row>, i: nat)
    requires i < |rows|
    ensures rows[..i + 1] == rows[..i] + [rows[i]]
  {}

  lemma NextRowIsRead(st: State, rows: seq<Row>, i: nat)
    requires i < |rows| && Read(st, rows[..i])
    ensures Read(AddRow(st, rows[i], i), rows[..i + 1])
  {
    PrefixGrows(rows, i);
    RowIsRead(st, rows[..i], rows[i], i, rows[..i + 1]);
  }

  /** Every side of every row is kept, a repeat, part of a conflict or rejected. */
  ghost predicate Accounts(r: Result, rows: seq<Row>) {
    && r.rowCount == |rows| && |rows| == DictRows(rows) + CountAt(r.rejected, true)
    && 2 * DictRows(rows)
       == |r.quotes| + r.duplicateCount + CountKind(r.conflicts, OfContract) + CountAt(r.rejected, false)
  }

  lemma ReadAccounts(st: State, rows: seq<Row>, r: Result)
    requires Read(st, rows) && r == Finish(st, |rows|)
    ensures KeepsTheUncontested(r.quotes, Sides(rows)) && KeepsTheUncontestedBases(r.underlyings, Bases(rows))
    ensures AccusesTheContested(r.conflicts, Sides(rows)) && Accounts(r, rows)
    ensures r.rejected == Refusals(rows) && Placed(r.conflicts, rows)
  {
    SoundResult(st, rows);
    SoundAccounts(st, rows);
  }

  /**
   * `extract`: a contract is kept exactly when all its readings agree, and then once; likewise an
   * underlying. A conflict names exactly the contracts read with two values, and rows that read
   * them. What cannot be read is rejected row by row, and nothing is lost.
   */
  method Extract(rows: seq<Row>) returns (r: Result)
    ensures KeepsTheUncontested(r.quotes, Sides(rows)) && KeepsTheUncontestedBases(r.underlyings, Bases(rows))
    ensures AccusesTheContested(r.conflicts, Sides(rows)) && Accounts(r, rows)
    ensures r.rejected == Refusals(rows) && Placed(r.conflicts, rows)
  {
    var c := new Collector();
    StartIsRead(rows[..0]);
    for i := 0 to |rows|
      invariant fresh(c) && Read(c.Contents(), rows[..i])
    {
      ghost var st := c.Contents();
      c.CollectRow(rows[i], i);
      NextRowIsRead(st, rows, i);
    }
    assert rows[..|rows|] == rows;
    r := Finish(c.Contents(), |rows|);
    ReadAccounts(c.Contents(), rows, r);
  }

  lemma RowKeepsSound(st: State, front: seq<Row>, row: Row, i: int, rows: seq<Row>)
    requires Sound(st, front) && rows != [] && front == rows[..|rows| - 1] && row == rows[|rows| - 1]
    ensures Sound(AddRow(st, row, i), rows)
  {
    if row.Dict? {
      RowIsSound(st, front, row, i, rows);
    } else {
      BadRowIsSound(st, front, row, i, rows);
    }
  }

  lemma SoundQuotes(st: State, rows: seq<Row>)
    requires Sound(st, rows)
    ensures KeepsTheUncontested(Without(st.quotes, st.conflicted), Sides(rows))
  {
    forall q ensures q in Without(st.quotes, st.conflicted) <==> Uncontested(Sides(rows), q) {
      KeptAreUncontested(Sides(rows), st.quotes, st.seen, st.conflicted, q);
    }
  }

  lemma SoundBases(st: State, rows: seq<Row>)
    requires Sound(st, rows)
    ensures KeepsTheUncontestedBases(WithoutBases(st.underlyings, st.conflictedBases), Bases(rows))
  {
    forall u ensures u in WithoutBases(st.underlyings, st.conflictedBases) <==> UncontestedBase(Bases(rows), u) {
      KeptBasesAreUncontested(Bases(rows), st.underlyings, st.seenBases, st.conflictedBases, u);
    }
  }

  lemma SoundResult(st: State, rows: seq<Row>)
    requires Sound(st, rows)
    ensures KeepsTheUncontested(Without(st.quotes, st.conflicted), Sides(rows))
    ensures KeepsTheUncontestedBases(WithoutBases(st.underlyings, st.conflictedBases), Bases(rows))
    ensures AccusesTheContested(st.conflicts, Sides(rows))
  {
    SoundQuotes(st, rows);
    SoundBases(st, rows);
    SoundAccuses(st, rows);
  }

  lemma SoundAccuses(st: State, rows: seq<Row>)
    requires Sound(st, rows)
    ensures AccusesTheContested(st.conflicts, Sides(rows))
  {
    forall k ensures Accused(st.conflicts, k) <==>
      exists q :: Good(q) in Sides(rows) && q.insCode == k && Contested(Sides(rows), q) {
      SoundNames(st, rows, k);
    }
  }

  // ---- The order of the rows does not matter ------------------------------------------------------

  lemma {:induction false} InSides(rows: seq<Row>, s: Side)
    ensures s in Sides(rows) <==> exists row :: row in rows && s in SidesOf(row)
  {
    if rows != [] {
      var front, last := rows[..|rows| - 1], rows[|rows| - 1];
      InSides(front, s);
      assert rows == front + [last];
    }
  }

  lemma {:induction false} InBases(rows: seq<Row>, b: Underlying)
    ensures b in Bases(rows) <==> exists row :: row in rows && b in BasesOf(row)
  {
    if rows != [] {
      var front, last := rows[..|rows| - 1], rows[|rows| - 1];
      InBases(front, b);
      assert rows == front + [last];
    }
  }

  /** What is kept does not depend on the order of the rows. */
  lemma KeptIgnoresOrder(rows: seq<Row>, shuffled: seq<Row>, q: Quote, u: Underlying)
    requires multiset(rows) == multiset(shuffled)
    ensures Uncontested(Sides(rows), q) <==> Uncontested(Sides(shuffled), q)
    ensures UncontestedBase(Bases(rows), u) <==> UncontestedBase(Bases(shuffled), u)
  {
    SameRows(rows, shuffled);
    forall s ensures s in Sides(rows) <==> s in Sides(shuffled) {
      InSides(rows, s);
      InSides(shuffled, s);
    }
    forall b ensures b in Bases(rows) <==> b in Bases(shuffled) {
      InBases(rows, b);
      InBases(shuffled, b);
    }
  }

  lemma SameRows(rows: seq<Row>, shuffled: seq<Row>)
    requires multiset(rows) == multiset(shuffled)
    ensures forall row :: row in rows <==> row in shuffled
  {
    forall row ensures row in rows <==> row in shuffled {
      assert row in rows <==> row in multiset(rows);
      assert row in shuffled <==> row in multiset(shuffled);
    }
  }
}
