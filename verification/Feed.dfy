/** The event feed: pages of the ledger after an exclusive cursor, the cursor chain a client
    follows, and the single-flight ticker that shows the newest events. */
module Feed {
  import opened Lists
  import opened Text
  import opened Ledger
  import opened Projection
  import opened Consumers

  const UINT64_MAX: nat := 0xffff_ffff_ffff_ffff
  const DEFAULT_EVENT_LIMIT := 50
  const MAX_EVENT_LIMIT := 100
  const EVENT_LIMIT := 100
  const TICKER_MAX: nat := 30

  // ---- storage ----------------------------------------------------------------------------

  /** XRANGE with an exclusive start and a count. */
  function PageAfter(entries: seq<Entry>, after: StreamId, limit: nat): seq<Entry> {
    var n := CountUpTo(EntryIds(entries), after);
    entries[n..if n + limit < |entries| then n + limit else |entries|]
  }

  /** Every entry decoded, or the first error. */
  function DecodeAll(entries: seq<Entry>): ReadResult {
    if entries == [] then Events([]) else
      match DecodeAll(entries[..|entries| - 1])
      case Failed(error) => Failed(error)
      case Events(events) =>
        match EntryToEvent(entries[|entries| - 1])
        case Rejected(error) => Failed(error)
        case Ok(e) => Events(events + [e])
  }

  lemma {:induction false} DecodeStopsAtError(entries: seq<Entry>, n: nat)
    requires n <= |entries| && DecodeAll(entries[..n]).Failed?
    ensures DecodeAll(entries) == DecodeAll(entries[..n])
  {
    hide EntryToEvent;
    if n == |entries| {
      assert entries[..n] == entries;
    } else {
      assert entries[..|entries| - 1][..n] == entries[..n];
      DecodeStopsAtError(entries[..|entries| - 1], n);
    }
  }

  lemma DecodeGrows(entries: seq<Entry>)
    requires entries != []
    ensures var init, last := entries[..|entries| - 1], EntryToEvent(entries[|entries| - 1]);
            && EventsOf(entries) == EventsOf(init) + (if last.Ok? then [last.event] else [])
            && (DecodeAll(entries).Events? <==> DecodeAll(init).Events? && last.Ok?)
            && (DecodeAll(entries).Events? ==> DecodeAll(entries).events == DecodeAll(init).events + [last.event])
  {
    hide EntryToEvent;
  }

  /** A page is served only when all its entries decode; then it is those events, one for one. */
  lemma {:induction false} DecodedPage(entries: seq<Entry>)
    ensures DecodeAll(entries).Events? <==> forall i :: 0 <= i < |entries| ==> EntryToEvent(entries[i]).Ok?
    ensures DecodeAll(entries).Events? ==>
              var events := DecodeAll(entries).events;
              && events == EventsOf(entries) && |events| == |entries|
              && forall i :: 0 <= i < |entries| ==> events[i].id == entries[i].id
  {
    hide EntryToEvent;
    if entries != [] {
      var n := |entries| - 1;
      DecodedPage(entries[..n]);
      DecodingKeepsId(entries[n]);
      DecodeGrows(entries);
      assert forall i :: 0 <= i < n ==> entries[..n][i] == entries[i];
    }
  }

  /** The first entry that does not decode is the one the page fails with. */
  lemma {:induction false} PageFailsAtFirst(entries: seq<Entry>) returns (i: nat)
    requires DecodeAll(entries).Failed?
    ensures i < |entries| && EntryToEvent(entries[i]) == Rejected(DecodeAll(entries).error)
    ensures forall j :: 0 <= j < i ==> EntryToEvent(entries[j]).Ok?
  {
    hide EntryToEvent;
    var n := |entries| - 1;
    if DecodeAll(entries[..n]).Failed? {
      i := PageFailsAtFirst(entries[..n]);
      assert forall j :: 0 <= j < n ==> entries[..n][j] == entries[j];
    } else {
      i := n;
      DecodedPage(entries[..n]);
      assert forall j :: 0 <= j < n ==> entries[..n][j] == entries[j];
    }
  }

  method ListEventsAfter(entries: seq<Entry>, after: StreamId, limit: int) returns (r: ReadResult)
    ensures limit <= 0 ==> r == Events([])
    ensures limit > 0 ==> r == DecodeAll(PageAfter(entries, after, limit))
  {
    if limit <= 0 {
      return Events([]);
    }
    var page := PageAfter(entries, after, limit);
    var events: seq<Event> := [];
    for i := 0 to |page|
      invariant DecodeAll(page[..i]) == Events(events)
    {
      assert page[..i + 1][..i] == page[..i];
      var decoded := EntryToEvent(page[i]);
      if decoded.Rejected? {
        DecodeStopsAtError(page, i + 1);
        return Failed(decoded.error);
      }
      events := events + [decoded.event];
    }
    assert page[..|page|] == page;
    return Events(events);
  }

  // ---- handler ----------------------------------------------------------------------------

  function ParseUint64(s: string): Option<nat> {
    match ParseNat(s)
    case None => None
    case Some(n) => if n <= UINT64_MAX then Some(n) else None
  }

  /** The cursor a query text names; None when validateEventID rejects it. */
  function ParseId(text: string): Option<StreamId> {
    match Cut(text, '-')
    case None => None
    case Some((msText, seqText)) =>
      match ParseUint64(msText)
      case None => None
      case Some(ms) =>
        match ParseUint64(seqText)
        case None => None
        case Some(seqNo) => Some(StreamId(ms, seqNo))
  }

  /** The id of an event is a valid cursor for the page after it. */
  lemma IdIsCursor(id: StreamId)
    ensures ParseId(id.ToText())
         == if id.ms <= 0xffff_ffff_ffff_ffff && id.seqNo <= 0xffff_ffff_ffff_ffff then Some(id) else None
  {
    IdTextCut(id.ms, id.seqNo);
    NatTextRoundTrip(id.ms);
    NatTextRoundTrip(id.seqNo);
  }

  datatype FeedResponse =
    | BadRequest
    | StorageError(error: DecodeError)
    | FeedPage(events: seq<Event>, limit: int, nextAfter: string)

  /** The cursor after a page: the last event's id, or the input when the page is empty. */
  function NextCursor(after: StreamId, events: seq<Event>): StreamId {
    if events == [] then after else events[|events| - 1].id
  }

  method HandleListEvents(entries: seq<Entry>, after: string, limitQuery: Option<int>) returns (r: FeedResponse)
    ensures var limit := if limitQuery.None? then 50 else limitQuery.value;
            if ParseId(after).None? || !(1 <= limit <= 100) then r == BadRequest else
            match DecodeAll(PageAfter(entries, ParseId(after).value, limit))
            case Failed(error) => r == StorageError(error)
            case Events(events) =>
              && r.FeedPage? && r.events == events && r.limit == limit
              && (if events == [] then r.nextAfter == after
                  else r.nextAfter == NextCursor(ParseId(after).value, events).ToText())
  {
    var cursor := ParseId(after);
    if cursor.None? {
      return BadRequest;
    }
    var limit := if limitQuery.None? then DEFAULT_EVENT_LIMIT else limitQuery.value;
    if limit < 1 || limit > MAX_EVENT_LIMIT {
      return BadRequest;
    }
    var result := ListEventsAfter(entries, cursor.value, limit);
    if result.Failed? {
      return StorageError(result.error);
    }
    var nextAfter := after;
    if |result.events| > 0 {
      nextAfter := result.events[|result.events| - 1].id.ToText();
    }
    return FeedPage(result.events, limit, nextAfter);
  }

  // ---- the chain of cursors ---------------------------------------------------------------

  /** At most one request is out at a time.  Its answer is computed on the ledger of the moment
      the server handles it, and may be lost on either way. */
  datatype Flight = NoRequest | Asked(after: StreamId, limit: nat) | Answered(result: ReadResult)

  /** `seen` holds every event delivered so far, oldest first. */
  datatype Reader = Reader(entries: seq<Entry>, cursor: StreamId, flight: Flight, seen: seq<Event>)

  datatype Move = Grow(entry: Entry) | Poll(limit: nat) | Serve | Deliver | Lose

  predicate Allowed(r: Reader, m: Move) {
    match m
    case Grow(entry) => Before(LastId(EntryIds(r.entries)), entry.id)
    case Poll(limit) => limit > 0
    case Serve => r.flight.Asked?
    case Deliver => r.flight.Answered?
    case Lose => true
  }

  function After(r: Reader, m: Move): Reader
    requires Allowed(r, m)
  {
    match m
    case Grow(entry) => r.(entries := r.entries + [entry])
    case Poll(limit) => if r.flight.NoRequest? then r.(flight := Asked(r.cursor, limit)) else r
    case Serve => r.(flight := Answered(DecodeAll(PageAfter(r.entries, r.flight.after, r.flight.limit))))
    case Deliver => Received(r, r.flight.result)
    case Lose => r.(flight := NoRequest)
  }

  function Received(r: Reader, result: ReadResult): Reader {
    match result
    case Failed(_) => r.(flight := NoRequest)
    case Events(events) => r.(flight := NoRequest, cursor := NextCursor(r.cursor, events), seen := r.seen + events)
  }

  predicate AllowedRun(r: Reader, moves: seq<Move>)
    decreases |moves|
  {
    moves == [] || (Allowed(r, moves[0]) && AllowedRun(After(r, moves[0]), moves[1..]))
  }

  function AfterAll(r: Reader, moves: seq<Move>): Reader
    requires AllowedRun(r, moves)
    decreases |moves|
  {
    if moves == [] then r else AfterAll(After(r, moves[0]), moves[1..])
  }

  /** The ledger entries after `start`, up to and including `end`. */
  function Between(entries: seq<Entry>, start: StreamId, end: StreamId): seq<Entry> {
    var p, q := CountUpTo(EntryIds(entries), start), CountUpTo(EntryIds(entries), end);
    if p <= q then entries[p..q] else []
  }

  predicate IsEntryId(entries: seq<Entry>, id: StreamId) {
    exists i :: 0 <= i < |entries| && entries[i].id == id
  }

  /** The cursor is the start, with nothing seen, or the id of the last entry seen. */
  predicate AtCursor(r: Reader, start: StreamId) {
    if r.cursor == start then r.seen == [] else Before(start, r.cursor) && IsEntryId(r.entries, r.cursor)
  }

  /** What was seen is every entry between start and cursor, once, in order, all decoded. */
  predicate SeenIsLedger(r: Reader, start: StreamId) {
    var passed := Between(r.entries, start, r.cursor);
    r.seen == EventsOf(passed) && |r.seen| == |passed|
  }

  /** An answer on its way is a decoded run of entries right after the cursor. */
  predicate FlightOk(r: Reader) {
    match r.flight
    case NoRequest => true
    case Asked(after, limit) => after == r.cursor && limit > 0
    case Answered(result) => result.Events? ==> IsNext(r.entries, r.cursor, result.events)
  }

  predicate IsNext(entries: seq<Entry>, cursor: StreamId, events: seq<Event>) {
    var n := CountUpTo(EntryIds(entries), cursor);
    && n + |events| <= |entries|
    && DecodeAll(entries[n..n + |events|]) == Events(events)
  }

  ghost predicate ReaderOk(r: Reader, start: StreamId) {
    Increasing(EntryIds(r.entries)) && AtCursor(r, start) && SeenIsLedger(r, start) && FlightOk(r)
  }

  lemma CountIs(ids: seq<StreamId>, id: StreamId, n: nat)
    requires Increasing(ids) && n <= |ids|
    requires forall i :: 0 <= i < n ==> !Before(id, ids[i])
    requires n < |ids| ==> Before(id, ids[n])
    ensures CountUpTo(ids, id) == n
  {
    if n < |ids| {
      CountSplits(ids, id, n);
    }
    if n > 0 {
      CountSplits(ids, id, n - 1);
    }
  }

  /** A newer entry does not move the position of an older id. */
  lemma GrowthKeepsCount(entries: seq<Entry>, entry: Entry, id: StreamId)
    requires Increasing(EntryIds(entries + [entry])) && Before(id, entry.id)
    ensures CountUpTo(EntryIds(entries + [entry]), id) == CountUpTo(EntryIds(entries), id)
  {
    var ids, longer := EntryIds(entries), EntryIds(entries + [entry]);
    var n := CountUpTo(ids, id);
    assert longer == ids + [entry.id];
    CountIs(longer, id, n);
  }

  lemma GrowthKeepsOrder(entries: seq<Entry>, entry: Entry)
    requires Increasing(EntryIds(entries)) && Before(LastId(EntryIds(entries)), entry.id)
    ensures Increasing(EntryIds(entries + [entry]))
    ensures forall i :: 0 <= i < |entries| ==> Before(entries[i].id, entry.id)
  {
    var ids := EntryIds(entries);
    assert EntryIds(entries + [entry]) == ids + [entry.id];
    forall i | 0 <= i < |ids| ensures Before(entries[i].id, entry.id) {
      assert i == |ids| - 1 || Before(ids[i], ids[|ids| - 1]);
    }
    assert ids != [] ==> Before(HEAD, ids[|ids| - 1]);
  }

  lemma BetweenKept(entries: seq<Entry>, entry: Entry, start: StreamId, end: StreamId)
    requires Increasing(EntryIds(entries + [entry])) && Before(start, entry.id) && Before(end, entry.id)
    ensures Between(entries + [entry], start, end) == Between(entries, start, end)
  {
    GrowthKeepsCount(entries, entry, start);
    GrowthKeepsCount(entries, entry, end);
    hide CountUpTo, Increasing, Before;
  }

  lemma GrowKeepsBetween(r: Reader, entry: Entry, start: StreamId)
    requires Increasing(EntryIds(r.entries)) && AtCursor(r, start) && Allowed(r, Grow(entry))
    ensures Between(r.entries + [entry], start, r.cursor) == Between(r.entries, start, r.cursor)
  {
    hide CountUpTo, Increasing;
    GrowthKeepsOrder(r.entries, entry);
    if r.cursor != start {
      var i :| 0 <= i < |r.entries| && r.entries[i].id == r.cursor;
      assert Before(r.cursor, entry.id);
      BetweenKept(r.entries, entry, start, r.cursor);
    }
  }

  lemma GrowKeepsNext(entries: seq<Entry>, entry: Entry, cursor: StreamId, events: seq<Event>)
    requires Increasing(EntryIds(entries)) && Before(LastId(EntryIds(entries)), entry.id)
    requires IsNext(entries, cursor, events)
    ensures IsNext(entries + [entry], cursor, events)
  {
    hide EntryToEvent, Increasing, LastId, CountUpTo;
    GrowthKeepsOrder(entries, entry);
    var n := CountUpTo(EntryIds(entries), cursor);
    if events == [] {
      var m := CountUpTo(EntryIds(entries + [entry]), cursor);
      assert (entries + [entry])[m..m] == [] == entries[n..n];
    } else {
      assert Before(cursor, entries[n].id);
      GrowthKeepsCount(entries, entry, cursor);
      assert (entries + [entry])[n..n + |events|] == entries[n..n + |events|];
    }
  }

  lemma LastOfPage(entries: seq<Entry>, n: nat, events: seq<Event>)
    requires n + |events| <= |entries| && events != []
    requires DecodeAll(entries[n..n + |events|]) == Events(events)
    ensures entries[n + |events| - 1].id == events[|events| - 1].id
  {
    DecodedPage(entries[n..n + |events|]);
  }

  lemma PageEvents(entries: seq<Entry>, n: nat, events: seq<Event>)
    requires n + |events| <= |entries| && DecodeAll(entries[n..n + |events|]) == Events(events)
    ensures EventsOf(entries[n..n + |events|]) == events
  {
    DecodedPage(entries[n..n + |events|]);
  }

  lemma PositionAfter(ids: seq<StreamId>, cursor: StreamId, k: nat)
    requires Increasing(ids) && k > 0 && CountUpTo(ids, cursor) + k <= |ids|
    ensures var last := CountUpTo(ids, cursor) + k - 1;
            CountUpTo(ids, ids[last]) == last + 1 && Before(cursor, ids[last])
  {
    hide CountUpTo;
    var last := CountUpTo(ids, cursor) + k - 1;
    CountAtEntry(ids, last);
    CountSplits(ids, cursor, last);
  }

  /** Receiving a page moves the position by exactly the page. */
  lemma ReceiveAdvances(r: Reader, events: seq<Event>)
    requires Increasing(EntryIds(r.entries)) && IsNext(r.entries, r.cursor, events)
    ensures var n := CountUpTo(EntryIds(r.entries), r.cursor);
            var m := n + |events|;
            && CountUpTo(EntryIds(r.entries), NextCursor(r.cursor, events)) == m
            && (events != [] ==> Before(r.cursor, NextCursor(r.cursor, events))
                                 && r.entries[m - 1].id == NextCursor(r.cursor, events))
  {
    hide EventsOf, DecodeAll, CountUpTo, Increasing, Before;
    var n := CountUpTo(EntryIds(r.entries), r.cursor);
    if events != [] {
      LastOfPage(r.entries, n, events);
      assert EntryIds(r.entries)[n + |events| - 1] == NextCursor(r.cursor, events);
      PositionAfter(EntryIds(r.entries), r.cursor, |events|);
    } else {
      assert NextCursor(r.cursor, events) == r.cursor;
    }
  }

  lemma CountMonotone(ids: seq<StreamId>, a: StreamId, b: StreamId)
    requires Increasing(ids) && (a == b || Before(a, b))
    ensures CountUpTo(ids, a) <= CountUpTo(ids, b)
  {
    var n := CountUpTo(ids, a);
    if n > 0 {
      CountSplits(ids, b, n - 1);
    }
  }

  lemma JoinedEvents(entries: seq<Entry>, p: nat, n: nat, m: nat)
    requires p <= n <= m <= |entries|
    ensures EventsOf(entries[p..m]) == EventsOf(entries[p..n]) + EventsOf(entries[n..m])
  {
    hide EntryToEvent;
    assert entries[p..m] == entries[p..n] + entries[n..m];
    EventsOfConcat(entries[p..n], entries[n..m]);
  }

  lemma ReceiveKeepsSeen(r: Reader, events: seq<Event>, start: StreamId)
    requires Increasing(EntryIds(r.entries)) && IsNext(r.entries, r.cursor, events)
    requires start == r.cursor || Before(start, r.cursor)
    requires SeenIsLedger(r, start)
    ensures SeenIsLedger(Received(r, Events(events)), start)
  {
    hide EventsOf, DecodeAll, Increasing, Before, CountUpTo, EntryIds;
    var ids := EntryIds(r.entries);
    ReceiveAdvances(r, events);
    CountMonotone(ids, start, r.cursor);
    var p, n := CountUpTo(ids, start), CountUpTo(ids, r.cursor);
    var m := n + |events|;
    PageEvents(r.entries, n, events);
    JoinedEvents(r.entries, p, n, m);
  }

  lemma ReceiveKeepsOk(r: Reader, events: seq<Event>, start: StreamId)
    requires ReaderOk(r, start) && r.flight == Answered(Events(events))
    ensures ReaderOk(Received(r, Events(events)), start)
  {
    hide EntryToEvent, DecodeAll, Increasing, SeenIsLedger;
    ReceiveAdvances(r, events);
    ReceiveKeepsSeen(r, events, start);
  }

  lemma ServeKeepsOk(r: Reader)
    requires FlightOk(r) && Allowed(r, Serve)
    ensures FlightOk(After(r, Serve))
  {
    hide EntryToEvent;
    var page := PageAfter(r.entries, r.flight.after, r.flight.limit);
    DecodedPage(page);
    var n := CountUpTo(EntryIds(r.entries), r.cursor);
    assert r.entries[n..n + |page|] == page;
  }

  lemma GrowKeepsOk(r: Reader, entry: Entry, start: StreamId)
    requires ReaderOk(r, start) && Allowed(r, Grow(entry))
    ensures ReaderOk(After(r, Grow(entry)), start)
  {
    GrowthKeepsOrder(r.entries, entry);
    GrowKeepsBetween(r, entry, start);
    hide EventsOf, DecodeAll, IsNext, Between, Increasing;
    assert AtCursor(After(r, Grow(entry)), start) by {
      if r.cursor != start {
        var i :| 0 <= i < |r.entries| && r.entries[i].id == r.cursor;
        assert (r.entries + [entry])[i].id == r.cursor;
      }
    }
    if r.flight.Answered? && r.flight.result.Events? {
      GrowKeepsNext(r.entries, entry, r.cursor, r.flight.result.events);
    }
  }

  lemma PollKeepsOk(r: Reader, m: Move, start: StreamId)
    requires ReaderOk(r, start) && Allowed(r, m) && (m.Poll? || m.Lose?)
    ensures ReaderOk(After(r, m), start)
  {
    hide EventsOf, DecodeAll, IsNext, Between, Increasing;
  }

  lemma DeliverKeepsOk(r: Reader, start: StreamId)
    requires ReaderOk(r, start) && Allowed(r, Deliver)
    ensures ReaderOk(After(r, Deliver), start)
  {
    hide EventsOf, DecodeAll, IsNext, Between, Increasing;
    if r.flight.result.Events? {
      ReceiveKeepsOk(r, r.flight.result.events, start);
    }
  }

  lemma AfterKeepsOk(r: Reader, m: Move, start: StreamId)
    requires ReaderOk(r, start) && Allowed(r, m)
    ensures ReaderOk(After(r, m), start)
    ensures r.seen <= After(r, m).seen && r.entries <= After(r, m).entries
  {
    hide EventsOf, DecodeAll, IsNext, Between, Increasing;
    match m
    case Grow(entry) => GrowKeepsOk(r, entry, start);
    case Serve => ServeKeepsOk(r);
    case Deliver => DeliverKeepsOk(r, start);
    case _ => PollKeepsOk(r, m, start);
  }

  function Start(entries: seq<Entry>, start: StreamId): Reader {
    Reader(entries, start, NoRequest, [])
  }

  lemma {:induction false} RunKeepsReaderOk(r: Reader, moves: seq<Move>, start: StreamId)
    requires ReaderOk(r, start) && AllowedRun(r, moves)
    ensures ReaderOk(AfterAll(r, moves), start)
    ensures r.seen <= AfterAll(r, moves).seen && r.entries <= AfterAll(r, moves).entries
    decreases |moves|
  {
    if moves != [] {
      AfterKeepsOk(r, moves[0], start);
      RunKeepsReaderOk(After(r, moves[0]), moves[1..], start);
    }
  }

  lemma StartIsOk(entries: seq<Entry>, start: StreamId)
    requires Increasing(EntryIds(entries))
    ensures ReaderOk(Start(entries, start), start)
  {
  }

  /** Feed completeness.  From any ledger and any start cursor, over every run with appends, lost
      requests and lost answers and any page sizes: what was delivered is every ledger entry after
      the start up to the cursor, each exactly once and decoded, in ledger order, and the ledger only
      grew. */
  lemma FeedIsComplete(entries: seq<Entry>, start: StreamId, moves: seq<Move>)
    requires Increasing(EntryIds(entries)) && AllowedRun(Start(entries, start), moves)
    ensures var r := AfterAll(Start(entries, start), moves);
            var p, q := CountUpTo(EntryIds(r.entries), start), CountUpTo(EntryIds(r.entries), r.cursor);
            && entries <= r.entries && p <= q
            && r.seen == EventsOf(r.entries[p..q]) && |r.seen| == q - p
            && (forall i :: p <= i < q ==> EntryToEvent(r.entries[i]).Ok?)
  {
    hide EntryToEvent, EventsOf, FlightOk;
    StartIsOk(entries, start);
    RunKeepsReaderOk(Start(entries, start), moves, start);
    var r := AfterAll(Start(entries, start), moves);
    CountMonotone(EntryIds(r.entries), start, r.cursor);
    var p, q := CountUpTo(EntryIds(r.entries), start), CountUpTo(EntryIds(r.entries), r.cursor);
    forall i | p <= i < q ensures EntryToEvent(r.entries[i]).Ok? {
      if EntryToEvent(r.entries[i]).Rejected? {
        RejectedShortens(r.entries[p..q], i - p);
      }
    }
  }

  function Left(r: Reader): nat {
    |r.entries| - CountUpTo(EntryIds(r.entries), r.cursor)
  }

  /** The reader after one undisturbed poll. */
  function Polled(r: Reader, limit: nat): Reader
    requires r.flight.NoRequest? && limit > 0
  {
    After(After(After(r, Poll(limit)), Serve), Deliver)
  }

  /** A poll advances exactly when there is something unread and all of the page decodes; then it
      consumes a full page or the rest.  One malformed entry in the page stops the feed for good:
      unlike the consumers, readers of the feed do not skip it. */
  lemma PollAdvancesIff(r: Reader, limit: nat, start: StreamId)
    requires ReaderOk(r, start) && r.flight.NoRequest? && limit > 0
    ensures var page := PageAfter(r.entries, r.cursor, limit);
            var r' := Polled(r, limit);
            && (r'.cursor != r.cursor <==>
                  page != [] && forall i :: 0 <= i < |page| ==> EntryToEvent(page[i]).Ok?)
            && (r'.cursor != r.cursor ==> Left(r') == if Left(r) > limit then Left(r) - limit else 0)
            && (r'.cursor == r.cursor ==> r' == r)
  {
    var page := PageAfter(r.entries, r.cursor, limit);
    DecodedPage(page);
    hide EntryToEvent;
    var n := CountUpTo(EntryIds(r.entries), r.cursor);
    assert r.entries[n..n + |page|] == page;
    if DecodeAll(page).Events? {
      ReceiveAdvances(r, DecodeAll(page).events);
    }
  }

  lemma {:induction false} RejectedShortens(entries: seq<Entry>, i: nat)
    requires i < |entries| && EntryToEvent(entries[i]).Rejected?
    ensures |EventsOf(entries)| < |entries|
  {
    hide EntryToEvent;
    if i < |entries| - 1 {
      RejectedShortens(entries[..|entries| - 1], i);
    }
  }

  lemma MalformedIsAhead(t: Reader, start: StreamId, i: nat)
    requires ReaderOk(t, start) && i < |t.entries|
    requires EntryToEvent(t.entries[i]).Rejected? && Before(start, t.entries[i].id)
    ensures CountUpTo(EntryIds(t.entries), t.cursor) <= i
  {
    hide EntryToEvent, EventsOf, FlightOk, AtCursor;
    var ids := EntryIds(t.entries);
    CountSplits(ids, start, i);
    hide CountUpTo, Increasing, Before;
    var p, q := CountUpTo(ids, start), CountUpTo(ids, t.cursor);
    if q > i {
      assert Between(t.entries, start, t.cursor)[i - p] == t.entries[i];
      RejectedShortens(Between(t.entries, start, t.cursor), i - p);
    }
  }

  /** The feed stops at a malformed entry for good: over every run from a start before the entry, with
      any appends, polls and page sizes, the cursor never passes it. */
  lemma FeedNeverPassesMalformed(r: Reader, moves: seq<Move>, start: StreamId, i: nat)
    requires ReaderOk(r, start) && AllowedRun(r, moves)
    requires i < |r.entries| && EntryToEvent(r.entries[i]).Rejected? && Before(start, r.entries[i].id)
    ensures var t := AfterAll(r, moves);
            CountUpTo(EntryIds(t.entries), t.cursor) <= i
  {
    RunKeepsReaderOk(r, moves, start);
    hide EntryToEvent, EventsOf, FlightOk, AfterAll, AllowedRun;
    MalformedIsAhead(AfterAll(r, moves), start, i);
  }

  lemma EncodedPageDecodes(events: seq<Event>, after: StreamId, limit: nat)
    requires forall i :: 0 <= i < |events| ==> ValidEvent(events[i])
    ensures DecodeAll(PageAfter(Encode(events), after, limit)).Events?
  {
    hide EntryToEvent, EventToEntry, ValidEvent;
    var page := PageAfter(Encode(events), after, limit);
    DecodedPage(page);
    forall i | 0 <= i < |page| ensures EntryToEvent(page[i]).Ok? {
      EntryRoundTrip(events[CountUpTo(EntryIds(Encode(events)), after) + i]);
    }
  }

  /** On a ledger the write path produced no page ever fails, and what a feed delivers is the
      ledger after its start, event for event. */
  lemma FeedOfLedger(r: Reader, events: seq<Event>, start: StreamId, limit: nat)
    requires ReaderOk(r, start)
    requires r.entries == Encode(events) && forall i :: 0 <= i < |events| ==> ValidEvent(events[i])
    ensures var p, q := CountUpTo(EventIds(events), start), CountUpTo(EventIds(events), r.cursor);
            p <= q && r.seen == events[p..q]
    ensures DecodeAll(PageAfter(r.entries, r.cursor, limit)).Events?
  {
    hide EntryToEvent, EventToEntry, ValidEvent, FlightOk, DecodeAll, PageAfter;
    EncodedIds(events);
    CountMonotone(EventIds(events), start, r.cursor);
    var p, q := CountUpTo(EventIds(events), start), CountUpTo(EventIds(events), r.cursor);
    EncodedSlice(events, p, q);
    EncodedAllDecode(events[p..q]);
    EncodedPageDecodes(events, r.cursor, limit);
  }

  // ---- the ticker -------------------------------------------------------------------------

  /** The newest rows: everything received, newest first, then the rows it started with. */
  function Shown(seen: seq<Event>, initial: seq<Event>): seq<Event> {
    First(Reverse(seen) + initial, TICKER_MAX)
  }

  /** Putting a page in front of the shown rows and cutting gives the newest rows again. */
  lemma ShownStep(seen: seq<Event>, page: seq<Event>, initial: seq<Event>)
    ensures Shown(seen + page, initial) == First(Reverse(page) + Shown(seen, initial), TICKER_MAX)
  {
    ReverseConcat(seen, page);
    assert Reverse(seen + page) + initial == Reverse(page) + (Reverse(seen) + initial);
    FirstOfConcat(Reverse(page), Reverse(seen) + initial, TICKER_MAX);
  }

  class Ticker {
    var events: seq<Event>
    var eventCursor: string
    var tickerPolling: bool
    var tickerError: string
    ghost var seen: seq<Event>
    ghost const initial: seq<Event>

    ghost predicate Valid()
      reads this
    {
      events == Shown(seen, initial)
    }

    /** The ticker's fields are those of reader r. */
    ghost predicate Follows(r: Reader)
      reads this
    {
      ParseId(eventCursor) == Some(r.cursor) && seen == r.seen && (tickerPolling <==> !r.flight.NoRequest?)
    }

    constructor (cursor: string, rows: seq<Event>)
      ensures Valid() && eventCursor == cursor && initial == rows && seen == [] && !tickerPolling
    {
      events := First(rows, TICKER_MAX);
      eventCursor, tickerPolling, tickerError := cursor, false, "";
      seen, initial := [], rows;
      new;
      assert Reverse([]) + rows == rows;
    }

    /** The part of a poll before its request: nothing while another poll is out. */
    method BeginPoll(ghost r: Reader) returns (request: Option<(string, nat)>)
      requires Valid() && Follows(r)
      modifies this`tickerPolling
      ensures Valid() && Follows(After(r, Poll(EVENT_LIMIT)))
      ensures request == if old(tickerPolling) then None else Some((eventCursor, 100))
    {
      if tickerPolling {
        return None;
      }
      tickerPolling := true;
      return Some((eventCursor, EVENT_LIMIT));
    }

    /** The part after a page arrived. */
    method ReceivePage(page: seq<Event>, nextAfter: string, ghost r: Reader)
      requires Valid() && Follows(r) && r.flight == Answered(Events(page))
      requires ParseId(nextAfter) == Some(NextCursor(r.cursor, page))
      modifies this
      ensures Valid() && Follows(After(r, Deliver))
      ensures tickerError == ""
    {
      tickerError := "";
      if |page| > 0 {
        var newest := Reverse(page);
        eventCursor := nextAfter;
        ShownStep(seen, page, initial);
        events := First(newest + events, TICKER_MAX);
        seen := seen + page;
      } else {
        assert r.seen + page == r.seen;
      }
      tickerPolling := false;
    }

    /** The part after a failed request or answer. */
    method FailPoll(message: string, ghost r: Reader)
      requires Valid() && Follows(r)
      modifies this`tickerError, this`tickerPolling
      ensures Valid() && Follows(After(r, Lose))
      ensures r.flight.Answered? && r.flight.result.Failed? ==> After(r, Lose) == After(r, Deliver)
      ensures tickerError == message
    {
      tickerError := message;
      tickerPolling := false;
    }
  }

  lemma SliceKeepsOrder(entries: seq<Entry>, p: nat, q: nat)
    requires Increasing(EntryIds(entries)) && p <= q <= |entries|
    ensures Increasing(EntryIds(entries[p..q]))
  {
    assert EntryIds(entries[p..q]) == EntryIds(entries)[p..q];
  }

  lemma PassedAreAfter(entries: seq<Entry>, q: nat, start: StreamId, e: Event)
    requires Increasing(EntryIds(entries)) && CountUpTo(EntryIds(entries), start) <= q <= |entries|
    requires e in EventsOf(entries[CountUpTo(EntryIds(entries), start)..q])
    ensures Before(start, e.id)
  {
    hide EntryToEvent, EventsOf;
    var p := CountUpTo(EntryIds(entries), start);
    EventsOfMember(entries[p..q], e);
    var i :| 0 <= i < q - p && EntryToEvent(entries[p..q][i]) == Ok(e);
    DecodingKeepsId(entries[p + i]);
    CountSplits(EntryIds(entries), start, p + i);
  }

  /** Everything received is newer than the start, oldest first. */
  lemma SeenIsOrdered(r: Reader, start: StreamId)
    requires ReaderOk(r, start)
    ensures Increasing(EventIds(r.seen))
    ensures forall e :: e in r.seen ==> Before(start, e.id)
  {
    hide EntryToEvent, FlightOk;
    var ids := EntryIds(r.entries);
    CountMonotone(ids, start, r.cursor);
    var p, q := CountUpTo(ids, start), CountUpTo(ids, r.cursor);
    SliceKeepsOrder(r.entries, p, q);
    DecodedAreOrdered(r.entries[p..q]);
    forall e | e in r.seen ensures Before(start, e.id) {
      PassedAreAfter(r.entries, q, start, e);
    }
  }

  predicate NewestFirst(events: seq<Event>) {
    forall i, j :: 0 <= i < j < |events| ==> Before(events[j].id, events[i].id)
  }

  /** No row on screen is older than an event left out. */
  predicate OnlyOlderHidden(shown: seq<Event>, all: seq<Event>) {
    forall i, j :: 0 <= i < |shown| <= j < |all| ==> Before(all[j].id, shown[i].id)
  }

  /** The ticker shows the newest events, newest first: with initial rows in order and none newer
      than the start cursor, after any run the rows are the first 30 of the received feed,
      reversed, followed by the initial rows, in strictly falling order; what is not shown is
      older than all that is. */
  lemma TickerIsNewest(r: Reader, moves: seq<Move>, start: StreamId, initial: seq<Event>)
    requires ReaderOk(r, start) && AllowedRun(r, moves)
    requires NewestFirst(initial) && forall i :: 0 <= i < |initial| ==> !Before(start, initial[i].id)
    ensures var seen := AfterAll(r, moves).seen;
            var all := Reverse(seen) + initial;
            && NewestFirst(Shown(seen, initial))
            && OnlyOlderHidden(Shown(seen, initial), all)
            && Shown(seen, initial) <= all
            && |Shown(seen, initial)| == if |all| < 30 then |all| else 30
  {
    hide EntryToEvent, ReaderOk;
    RunKeepsReaderOk(r, moves, start);
    var seen := AfterAll(r, moves).seen;
    SeenIsOrdered(AfterAll(r, moves), start);
    NewestFirstJoined(seen, initial, start);
  }

  lemma NewestFirstJoined(seen: seq<Event>, initial: seq<Event>, start: StreamId)
    requires Increasing(EventIds(seen)) && forall e :: e in seen ==> Before(start, e.id)
    requires NewestFirst(initial) && forall i :: 0 <= i < |initial| ==> !Before(start, initial[i].id)
    ensures NewestFirst(Reverse(seen) + initial)
    ensures NewestFirst(Shown(seen, initial))
    ensures OnlyOlderHidden(Shown(seen, initial), Reverse(seen) + initial)
  {
    var all, n := Reverse(seen) + initial, |seen|;
    forall i, j | 0 <= i < j < |all| ensures Before(all[j].id, all[i].id) {
      if j < n {
        assert Before(EventIds(seen)[n - 1 - j], EventIds(seen)[n - 1 - i]);
      } else if i < n {
        assert seen[n - 1 - i] in seen;
        assert all[j] == initial[j - n];
      } else {
        assert all[j] == initial[j - n] && all[i] == initial[i - n];
      }
    }
  }
}
