/** The leaderboard table of the page: overlapping refreshes, answers out of order, and a board
    that changes between requests. */
module Refresh {
  import opened Text
  import opened Replay
  import opened Ranking

  // ---- the last page ----------------------------------------------------------------------

  /** Math.ceil(total / limit), for whole numbers. */
  function CeilDiv(total: nat, limit: nat): nat
    requires limit > 0
  {
    (total + limit - 1) / limit
  }

  /** The offset the page snaps to when its own lies past the end. */
  function SnapOffset(total: nat, limit: nat): int
    requires limit > 0
  {
    (CeilDiv(total, limit) - 1) * limit
  }

  /** Offset of the k-th page, counted from 0. */
  function PageOffset(k: int, limit: nat): int {
    k * limit
  }

  /** A page-aligned offset whose page holds the board's last row. */
  ghost predicate IsLastPage(offset: int, total: nat, limit: nat) {
    0 <= offset < total <= offset + limit && exists k :: offset == PageOffset(k, limit)
  }

  lemma CeilDivBounds(total: nat, limit: nat)
    requires limit > 0
    ensures (CeilDiv(total, limit) - 1) * limit < total || total == 0
    ensures total <= CeilDiv(total, limit) * limit
    ensures total > 0 ==> CeilDiv(total, limit) >= 1
  {
    var q, r := (total + limit - 1) / limit, (total + limit - 1) % limit;
    assert total + limit - 1 == q * limit + r;
    assert (q - 1) * limit == q * limit - limit;
  }

  lemma MulMonotone(a: int, b: int, c: nat)
    requires a <= b
    ensures a * c <= b * c
  {
  }

  lemma PagesApart(j: int, k: int, limit: nat)
    requires j < k
    ensures PageOffset(j, limit) + limit <= PageOffset(k, limit)
  {
    MulMonotone(j + 1, k, limit);
    assert (j + 1) * limit == j * limit + limit;
  }

  /** Snapping lands on the last page, and there is only one. */
  lemma SnapIsLastPage(total: nat, limit: nat, offset: int)
    requires limit > 0 && total > 0
    ensures IsLastPage(offset, total, limit) <==> offset == SnapOffset(total, limit)
  {
    var last := CeilDiv(total, limit) - 1;
    CeilDivBounds(total, limit);
    MulMonotone(0, last, limit);
    assert SnapOffset(total, limit) == PageOffset(last, limit) == CeilDiv(total, limit) * limit - limit;
    if IsLastPage(offset, total, limit) {
      var k :| offset == PageOffset(k, limit);
      if k < last {
        PagesApart(k, last, limit);
      } else if last < k {
        PagesApart(last, k, limit);
      }
    }
  }

  // ---- one refresh ------------------------------------------------------------------------

  /** The component's fields that refresh reads and writes. */
  datatype Screen = Screen(
    requestId: nat, boardId: string, limit: nat, offset: nat, rows: seq<Standing>, total: nat, error: string)

  datatype Answer = Answer(scores: seq<Standing>, total: nat)

  /** One refresh between two awaits, with what it captured when it began. */
  datatype Refreshing = Refreshing(boardId: string, limit: nat, offset: nat, snapped: bool, answer: Option<Answer>)

  /** The synchronous start: a new request id; without a board the table is cleared at once. */
  function Begun(s: Screen): (Screen, Option<Refreshing>) {
    var s' := s.(requestId := s.requestId + 1);
    if s.boardId == "" then (s'.(rows := [], total := 0), None)
    else (s', Some(Refreshing(s.boardId, s.limit, s.offset, false, None)))
  }

  predicate PastEnd(f: Refreshing, a: Answer) {
    !f.snapped && a.scores == [] && f.offset > 0 && a.total > 0
  }

  /** A page arrived: a stale refresh stops, one past the end asks again, else names are next. */
  function GotPage(s: Screen, id: nat, f: Refreshing, a: Answer): Option<Refreshing>
    requires f.limit > 0
  {
    if id != s.requestId then None
    else if PastEnd(f, a) then
      SnapIsLastPage(a.total, f.limit, SnapOffset(a.total, f.limit));
      Some(f.(snapped := true, offset := SnapOffset(a.total, f.limit)))
    else Some(f.(answer := Some(a)))
  }

  /** All names resolved: the one assignment of the table. */
  function GotNames(s: Screen, id: nat, f: Refreshing): Screen
    requires f.answer.Some?
  {
    if id != s.requestId then s
    else s.(offset := f.offset, rows := f.answer.value.scores, total := f.answer.value.total, error := "")
  }

  function GotError(s: Screen, id: nat, message: string): Screen {
    if id != s.requestId then s else s.(error := message)
  }

  // ---- many refreshes ---------------------------------------------------------------------

  /** What the API answers for a page of a board whose sorted set is z. */
  ghost function Served(z: Zset, limit: nat, offset: nat): Answer {
    Answer(ServableOnly(Page(z, limit, offset)), |z|)
  }

  /** What happened, in order: a refresh began, with what the screen asked for; the API served it a
      page of a board; a board changed. */
  datatype Fact =
    | BeganFact(id: nat, boardId: string, limit: nat, offset: nat)
    | ServedFact(id: nat, boardId: string, z: Zset)
    | ChangedFact(boardId: string, z: Zset)

  /** The page served at a position of the log, from content z. */
  datatype Serving = Serving(at: nat, z: Zset)

  /** A refresh whose page, or names, are on the way: where it began, the page that made it snap, and
      the page it waits for or has. */
  datatype Pending = Pending(refreshing: Refreshing, begun: nat, first: Option<Serving>, served: Option<Serving>)

  /** A finished update of the table. */
  datatype Update = Update(id: nat, begun: nat, first: Option<Serving>, served: Serving, offset: nat)

  /** `initial` is what the boards contained at first, `latest` the position where the latest refresh
      began, `updates` the finished updates in order, `failed` the refreshes that ended in an error. */
  datatype Session = Session(
    screen: Screen, pending: map<nat, Pending>, initial: map<string, Zset>, log: seq<Fact>, latest: nat,
    updates: seq<Update>, failed: set<nat>)

  /** A board's content after the facts of a log. */
  function ContentAt(initial: map<string, Zset>, log: seq<Fact>, boardId: string): Zset {
    if log == [] then (if boardId in initial then initial[boardId] else map[])
    else
      var last := log[|log| - 1];
      if last.ChangedFact? && last.boardId == boardId then last.z
      else ContentAt(initial, log[..|log| - 1], boardId)
  }

  datatype Edit = Tick | Select(boardId: string) | Resize(limit: nat) | Previous | Following

  datatype Move =
    | Start(edit: Edit)             // a user's change or the timer, and the refresh it starts
    | BoardsLoaded(boardId: string)
    | BoardChanges(boardId: string, z: Zset)
    | Serve(id: nat)
    | PageArrives(id: nat)
    | NamesArrive(id: nat)
    | RequestFails(id: nat, message: string)

  function Edited(s: Screen, edit: Edit): Screen {
    match edit
    case Tick => s
    case Select(b) => s.(boardId := b, rows := [], total := 0, offset := 0)
    case Resize(limit) => s.(limit := limit, offset := 0)
    case Previous => s.(offset := if s.offset < s.limit then 0 else s.offset - s.limit)
    case Following => s.(offset := s.offset + s.limit)
  }

  ghost predicate Possible(v: Session, m: Move) {
    match m
    case Start(edit) => edit.Resize? ==> edit.limit > 0
    case Serve(id) => id in v.pending && v.pending[id].served.None? && v.pending[id].refreshing.answer.None?
    case PageArrives(id) =>
      id in v.pending && v.pending[id].served.Some? && v.pending[id].refreshing.answer.None?
      && v.pending[id].refreshing.limit > 0
    case NamesArrive(id) => id in v.pending && v.pending[id].refreshing.answer.Some? && v.pending[id].served.Some?
    case RequestFails(id, _) => id in v.pending && v.pending[id].refreshing.answer.None?
    case _ => true
  }

  function Restarted(v: Session, edit: Edit): Session {
    var asked := Edited(v.screen, edit);
    var (screen, refreshing) := Begun(asked);
    v.(screen := screen,
       pending := if refreshing.None? then v.pending
                  else v.pending[screen.requestId := Pending(refreshing.value, |v.log|, None, None)],
       log := v.log + [BeganFact(screen.requestId, asked.boardId, asked.limit, asked.offset)],
       latest := |v.log|)
  }

  function ServedPage(v: Session, id: nat): Session
    requires id in v.pending
  {
    var b := v.pending[id].refreshing.boardId;
    var z := ContentAt(v.initial, v.log, b);
    v.(pending := v.pending[id := v.pending[id].(served := Some(Serving(|v.log|, z)))],
       log := v.log + [ServedFact(id, b, z)])
  }

  ghost function PageArrived(v: Session, id: nat): Session
    requires id in v.pending && v.pending[id].served.Some? && v.pending[id].refreshing.limit > 0
  {
    var p := v.pending[id];
    match GotPage(v.screen, id, p.refreshing, Served(p.served.value.z, p.refreshing.limit, p.refreshing.offset))
    case None => v.(pending := v.pending - {id})
    case Some(next) =>
      v.(pending := v.pending[id := if next.answer.Some? then p.(refreshing := next)
                                    else Pending(next, p.begun, p.served, None)])
  }

  function NamesArrived(v: Session, id: nat): Session
    requires id in v.pending && v.pending[id].refreshing.answer.Some? && v.pending[id].served.Some?
  {
    var p := v.pending[id];
    v.(screen := GotNames(v.screen, id, p.refreshing),
       pending := v.pending - {id},
       updates := if id != v.screen.requestId then v.updates
                  else v.updates + [Update(id, p.begun, p.first, p.served.value, p.refreshing.offset)])
  }

  function RequestFailed(v: Session, id: nat, message: string): Session {
    v.(screen := GotError(v.screen, id, message), pending := v.pending - {id}, failed := v.failed + {id})
  }

  ghost function Moved(v: Session, m: Move): Session
    requires Possible(v, m)
  {
    match m
    case Start(edit) => Restarted(v, edit)
    case BoardsLoaded(b) => v.(screen := v.screen.(boardId := b))
    case BoardChanges(b, z) => v.(log := v.log + [ChangedFact(b, z)])
    case Serve(id) => ServedPage(v, id)
    case PageArrives(id) => PageArrived(v, id)
    case NamesArrive(id) => NamesArrived(v, id)
    case RequestFails(id, message) => RequestFailed(v, id, message)
  }

  // ---- the component ----------------------------------------------------------------------

  class Table {
    var refreshRequestId: nat
    var boardId: string
    var limit: nat
    var offset: nat
    var rows: seq<Standing>
    var total: nat
    var error: string

    constructor (limit: nat)
      ensures Fields() == Screen(0, "", limit, 0, [], 0, "")
    {
      refreshRequestId, boardId, this.limit, offset := 0, "", limit, 0;
      rows, total, error := [], 0, "";
    }

    function Fields(): Screen
      reads this
    {
      Screen(refreshRequestId, boardId, limit, offset, rows, total, error)
    }

    /** The table's fields are those of session v. */
    ghost predicate Follows(v: Session)
      reads this
    {
      Fields() == v.screen
    }

    /** The continuation a method returns is the one the session has pending. */
    static ghost predicate Continues(v: Session, id: nat, next: Option<Refreshing>) {
      next.Some? ==> id in v.pending && v.pending[id].refreshing == next.value
    }

    /** refresh() up to its first await. */
    method Begin() returns (requestId: nat, refreshing: Option<Refreshing>)
      modifies this
      ensures (Fields(), refreshing) == Begun(old(Fields())) && requestId == refreshRequestId
      ensures refreshRequestId == old(refreshRequestId) + 1
      ensures boardId == old(boardId) && limit == old(limit) && offset == old(offset) && error == old(error)
      ensures refreshing == if boardId == "" then None else Some(Refreshing(boardId, limit, offset, false, None))
      ensures if boardId == "" then rows == [] && total == 0 else rows == old(rows) && total == old(total)
    {
      refreshRequestId := refreshRequestId + 1;
      requestId := refreshRequestId;
      if boardId == "" {
        rows, total := [], 0;
        return requestId, None;
      }
      return requestId, Some(Refreshing(boardId, limit, offset, false, None));
    }

    /** The timer's refresh. */
    method Refresh(ghost v: Session) returns (requestId: nat, refreshing: Option<Refreshing>)
      requires Follows(v)
      modifies this
      ensures Follows(Restarted(v, Tick)) && Continues(Restarted(v, Tick), requestId, refreshing)
      ensures boardId == old(boardId) && limit == old(limit) && offset == old(offset)
      ensures requestId == refreshRequestId == old(refreshRequestId) + 1
      ensures refreshing == if boardId == "" then None else Some(Refreshing(boardId, limit, offset, false, None))
    {
      requestId, refreshing := Begin();
    }

    method SelectBoard(id: string, ghost v: Session) returns (requestId: nat, refreshing: Option<Refreshing>)
      requires Follows(v)
      modifies this
      ensures Follows(Restarted(v, Select(id))) && Continues(Restarted(v, Select(id)), requestId, refreshing)
      ensures boardId == id && limit == old(limit) && offset == 0 && rows == [] && total == 0
    {
      boardId := id;
      rows, total, offset := [], 0, 0;
      requestId, refreshing := Begin();
    }

    method SetPageSize(size: nat, ghost v: Session) returns (requestId: nat, refreshing: Option<Refreshing>)
      requires Follows(v)
      modifies this
      ensures Follows(Restarted(v, Resize(size))) && Continues(Restarted(v, Resize(size)), requestId, refreshing)
      ensures boardId == old(boardId) && limit == size && offset == 0
    {
      limit := size;
      offset := 0;
      requestId, refreshing := Begin();
    }

    method PrevPage(ghost v: Session) returns (requestId: nat, refreshing: Option<Refreshing>)
      requires Follows(v)
      modifies this
      ensures Follows(Restarted(v, Previous)) && Continues(Restarted(v, Previous), requestId, refreshing)
      ensures boardId == old(boardId) && limit == old(limit)
      ensures offset == if old(offset) >= limit then old(offset) - limit else 0
    {
      offset := if offset - limit < 0 then 0 else offset - limit;
      requestId, refreshing := Begin();
    }

    method NextPage(ghost v: Session) returns (requestId: nat, refreshing: Option<Refreshing>)
      requires Follows(v)
      modifies this
      ensures Follows(Restarted(v, Following)) && Continues(Restarted(v, Following), requestId, refreshing)
      ensures boardId == old(boardId) && limit == old(limit) && offset == old(offset) + limit
    {
      offset := offset + limit;
      requestId, refreshing := Begin();
    }

    /** From a page's arrival to the next await. */
    method ReceivePage(requestId: nat, f: Refreshing, data: Answer, ghost v: Session)
      returns (next: Option<Refreshing>)
      requires Follows(v) && Possible(v, PageArrives(requestId)) && v.pending[requestId].refreshing == f
      requires data == Served(v.pending[requestId].served.value.z, f.limit, f.offset)
      ensures Follows(PageArrived(v, requestId)) && Continues(PageArrived(v, requestId), requestId, next)
      ensures next.None? <==> requestId !in PageArrived(v, requestId).pending
      ensures next.None? <==> requestId != refreshRequestId
      ensures requestId == refreshRequestId ==>
                if !f.snapped && data.scores == [] && f.offset > 0 && data.total > 0
                then next.value == f.(snapped := true, offset := next.value.offset)
                     && IsLastPage(next.value.offset, data.total, f.limit)
                else next.value == f.(answer := Some(data))
    {
      if requestId != refreshRequestId {
        return None;
      }
      if !f.snapped && |data.scores| == 0 && f.offset > 0 && data.total > 0 {
        SnapIsLastPage(data.total, f.limit, SnapOffset(data.total, f.limit));
        return Some(f.(snapped := true, offset := (CeilDiv(data.total, f.limit) - 1) * f.limit));
      }
      return Some(f.(answer := Some(data)));
    }

    /** From the last name's arrival to the end. */
    method ReceiveNames(requestId: nat, f: Refreshing, ghost v: Session)
      requires Follows(v) && Possible(v, NamesArrive(requestId)) && v.pending[requestId].refreshing == f
      modifies this
      ensures Follows(NamesArrived(v, requestId))
      ensures requestId != refreshRequestId ==> Fields() == old(Fields())
      ensures requestId == refreshRequestId ==>
                Fields() == Screen(requestId, old(boardId), old(limit), f.offset,
                                   f.answer.value.scores, f.answer.value.total, "")
    {
      if requestId != refreshRequestId {
        return;
      }
      offset := f.offset;
      rows := f.answer.value.scores;
      total := f.answer.value.total;
      error := "";
    }

    method Fail(requestId: nat, message: string, ghost v: Session)
      requires Follows(v)
      modifies this
      ensures Follows(RequestFailed(v, requestId, message))
      ensures Fields() == old(Fields()).(error := if requestId == refreshRequestId then message else old(error))
    {
      if requestId == refreshRequestId {
        error := message;
      }
    }
  }

  // ---- invariants -------------------------------------------------------------------------

  /** Every page was served from what its board contained at that moment. */
  ghost predicate LogOk(initial: map<string, Zset>, log: seq<Fact>) {
    forall k :: 0 <= k < |log| && log[k].ServedFact? ==>
      log[k].z == ContentAt(initial, log[..k], log[k].boardId)
  }

  /** A page of the refresh, served after position `from`. */
  predicate IsServing(log: seq<Fact>, id: nat, boardId: string, from: nat, s: Serving) {
    from < s.at < |log| && log[s.at] == ServedFact(id, boardId, s.z)
  }

  /** The page starting at the offset has no rows, though the board has. */
  ghost predicate PastContent(z: Zset, limit: nat, offset: nat) {
    Served(z, limit, offset).scores == [] && offset > 0 && |z| > 0
  }

  /** How a refresh that began at `begun` came to the offset: the one the screen asked for, or else
      that one was past the end of a page served to it since, and the offset is the last page of the
      content of that page. */
  ghost predicate OffsetExplained(
    log: seq<Fact>, id: nat, boardId: string, limit: nat, begun: nat, first: Option<Serving>, offset: nat)
  {
    && limit > 0 && begun < |log|
    && log[begun].BeganFact? && log[begun].id == id
    && log[begun].boardId == boardId && log[begun].limit == limit
    && match first
       case None => offset == log[begun].offset
       case Some(s) =>
         && IsServing(log, id, boardId, begun, s) && PastContent(s.z, limit, log[begun].offset)
         && offset == SnapOffset(|s.z|, limit)
  }

  function LastServed(begun: nat, first: Option<Serving>): nat {
    if first.Some? then first.value.at else begun
  }

  ghost predicate PendingOk(v: Session, id: nat)
    requires id in v.pending
  {
    var p, f := v.pending[id], v.pending[id].refreshing;
    && 0 < id <= v.screen.requestId && f.boardId != "" && f.snapped == p.first.Some?
    && OffsetExplained(v.log, id, f.boardId, f.limit, p.begun, p.first, f.offset)
    && (p.served.Some? ==> IsServing(v.log, id, f.boardId, LastServed(p.begun, p.first), p.served.value))
    && (f.answer.Some? ==>
          && p.served.Some? && f.answer.value == Served(p.served.value.z, f.limit, f.offset)
          && (PastContent(p.served.value.z, f.limit, f.offset) ==> f.snapped))
  }

  /** An update shows the page served last to its refresh; only a refresh that snapped shows an empty
      page of a board that has rows. */
  ghost predicate UpdateOk(v: Session, u: Update) {
    && 0 < u.id <= v.screen.requestId && u.id !in v.pending
    && u.begun < |v.log| && v.log[u.begun].BeganFact? && v.log[u.begun].boardId != ""
    && var began := v.log[u.begun];
       && OffsetExplained(v.log, u.id, began.boardId, began.limit, u.begun, u.first, u.offset)
       && IsServing(v.log, u.id, began.boardId, LastServed(u.begun, u.first), u.served)
       && (PastContent(u.served.z, began.limit, u.offset) ==> u.first.Some?)
  }

  ghost predicate UpdatesOk(v: Session) {
    && (forall i, j :: 0 <= i < j < |v.updates| ==> v.updates[i].id < v.updates[j].id)
    && (forall u :: u in v.updates ==> UpdateOk(v, u))
  }

  ghost predicate Shows(v: Session, u: Update)
    requires u.begun < |v.log| && v.log[u.begun].BeganFact?
  {
    v.screen.offset == u.offset && v.screen.total == |u.served.z|
    && v.screen.rows == Served(u.served.z, v.log[u.begun].limit, u.offset).scores
  }

  /** The latest refresh is the last that began; it is pending, failed or finished, and finished it
      is what the table shows. */
  ghost predicate LatestOk(v: Session) {
    var r := v.screen.requestId;
    && (forall id :: id in v.failed ==> id <= r)
    && (r > 0 ==>
          && v.latest < |v.log| && v.log[v.latest].BeganFact? && v.log[v.latest].id == r
          && (forall k :: v.latest < k < |v.log| ==> !v.log[k].BeganFact?)
          && (r in v.pending ==> v.pending[r].begun == v.latest)
          && (v.log[v.latest].boardId == "" ==> v.screen.rows == [] && v.screen.total == 0 && r !in v.pending)
          && (v.log[v.latest].boardId != "" && r !in v.pending && r !in v.failed ==>
                v.updates != [] && v.updates[|v.updates| - 1].id == r))
    && (v.updates != [] && v.updates[|v.updates| - 1].id == r ==>
          var u := v.updates[|v.updates| - 1];
          u.begun == v.latest < |v.log| && v.log[v.latest].BeganFact? && Shows(v, u))
  }

  ghost predicate SessionOk(v: Session) {
    v.screen.limit > 0 && LogOk(v.initial, v.log) && UpdatesOk(v) && LatestOk(v)
    && forall id :: id in v.pending ==> PendingOk(v, id)
  }

  /** A board contains what its latest change left, or what it contained at first. */
  lemma {:induction false} ContentIsLatestChange(initial: map<string, Zset>, log: seq<Fact>, b: string)
    ensures var z := ContentAt(initial, log, b);
            || (z == (if b in initial then initial[b] else map[])
                && forall k :: 0 <= k < |log| ==> !(log[k].ChangedFact? && log[k].boardId == b))
            || exists k :: 0 <= k < |log| && log[k] == ChangedFact(b, z)
                           && forall j :: k < j < |log| ==> !(log[j].ChangedFact? && log[j].boardId == b)
  {
    if log != [] {
      var n := |log| - 1;
      if log[n].ChangedFact? && log[n].boardId == b {
        assert log[n] == ChangedFact(b, ContentAt(initial, log, b));
      } else {
        var init := log[..n];
        ContentIsLatestChange(initial, init, b);
        var z := ContentAt(initial, init, b);
        assert forall k :: 0 <= k < n ==> log[k] == init[k];
        if k :| 0 <= k < n && init[k] == ChangedFact(b, z)
                && forall j :: k < j < n ==> !(init[j].ChangedFact? && init[j].boardId == b) {
          assert log[k] == ChangedFact(b, z);
        }
      }
    }
  }

  // ---- each move keeps them ---------------------------------------------------------------

  lemma LogGrows(initial: map<string, Zset>, log: seq<Fact>, fact: Fact)
    requires LogOk(initial, log)
    requires fact.ServedFact? ==> fact.z == ContentAt(initial, log, fact.boardId)
    ensures LogOk(initial, log + [fact])
  {
    var longer := log + [fact];
    forall k | 0 <= k < |longer| && longer[k].ServedFact?
      ensures longer[k].z == ContentAt(initial, longer[..k], longer[k].boardId)
    {
      assert k < |log| ==> longer[..k] == log[..k];
      assert longer[..|log|] == log;
    }
  }

  /** Facts added to the log take nothing away from a pending refresh. */
  lemma PendingKept(v: Session, w: Session, id: nat)
    requires id in v.pending && PendingOk(v, id) && id in w.pending && w.pending[id] == v.pending[id]
    requires v.log <= w.log && v.screen.requestId <= w.screen.requestId
    ensures PendingOk(w, id)
  {
    hide SnapOffset, Served;
  }

  lemma UpdateKept(v: Session, w: Session, u: Update)
    requires UpdateOk(v, u) && v.log <= w.log && v.screen.requestId <= w.screen.requestId && u.id !in w.pending
    ensures UpdateOk(w, u)
  {
    hide SnapOffset, Served;
  }

  lemma UpdatesKept(v: Session, w: Session)
    requires UpdatesOk(v) && w.updates == v.updates
    requires v.log <= w.log && v.screen.requestId <= w.screen.requestId
    requires forall id :: id in w.pending ==> id in v.pending || id > v.screen.requestId
    ensures UpdatesOk(w)
  {
    forall u | u in w.updates ensures UpdateOk(w, u) {
      assert UpdateOk(v, u);
      UpdateKept(v, w, u);
    }
  }

  lemma RestartKeepsPending(v: Session, edit: Edit, id: nat)
    requires SessionOk(v) && Possible(v, Start(edit)) && id in Restarted(v, edit).pending
    ensures PendingOk(Restarted(v, edit), id)
    ensures id in v.pending || id > v.screen.requestId
  {
    hide UpdatesOk, LatestOk, LogOk, SnapOffset;
    if id in v.pending {
      assert PendingOk(v, id);
      PendingKept(v, Restarted(v, edit), id);
    }
  }

  lemma RestartKeepsLatest(v: Session, edit: Edit)
    requires SessionOk(v) && Possible(v, Start(edit))
    ensures LatestOk(Restarted(v, edit))
  {
    hide LogOk, OffsetExplained, Served;
    if v.updates != [] {
      assert UpdateOk(v, v.updates[|v.updates| - 1]);
    }
    forall id | id in v.pending ensures id <= v.screen.requestId {
      assert PendingOk(v, id);
    }
  }

  lemma RestartKeepsOk(v: Session, edit: Edit)
    requires SessionOk(v) && Possible(v, Start(edit))
    ensures SessionOk(Restarted(v, edit))
  {
    var w := Restarted(v, edit);
    hide LogOk, UpdatesOk, LatestOk, PendingOk;
    LogGrows(v.initial, v.log, w.log[|v.log|]);
    RestartKeepsLatest(v, edit);
    forall id | id in w.pending ensures PendingOk(w, id) && (id in v.pending || id > v.screen.requestId) {
      RestartKeepsPending(v, edit, id);
    }
    UpdatesKept(v, w);
  }

  /** A step that starts no refresh and leaves table and updates alone. */
  lemma LatestKept(v: Session, w: Session)
    requires UpdatesOk(v) && LatestOk(v)
    requires w.updates == v.updates && w.failed == v.failed && w.latest == v.latest
    requires w.screen == v.screen.(boardId := w.screen.boardId)
    requires v.log <= w.log && forall k :: |v.log| <= k < |w.log| ==> !w.log[k].BeganFact?
    requires w.pending.Keys == v.pending.Keys
    requires forall id :: id in v.pending ==> w.pending[id].begun == v.pending[id].begun
    ensures LatestOk(w)
  {
    hide SnapOffset, Served, OffsetExplained;
    if v.updates != [] {
      assert UpdateOk(v, v.updates[|v.updates| - 1]);
    }
  }

  lemma ServeKeepsOk(v: Session, id: nat)
    requires SessionOk(v) && Possible(v, Serve(id))
    ensures SessionOk(ServedPage(v, id))
  {
    var w := ServedPage(v, id);
    LogGrows(v.initial, v.log, w.log[|v.log|]);
    UpdatesKept(v, w);
    forall k | k in w.pending ensures PendingOk(w, k) {
      assert PendingOk(v, k);
      if k != id {
        PendingKept(v, w, k);
      }
    }
    hide SnapOffset, Served, LogOk, UpdatesOk, LatestOk, PendingOk;
    LatestKept(v, w);
  }

  lemma SnapIsNat(total: nat, limit: nat)
    requires limit > 0 && total > 0
    ensures SnapOffset(total, limit) >= 0
  {
    SnapIsLastPage(total, limit, SnapOffset(total, limit));
  }

  /** A page of the latest refresh: it is past the end, and the snapped offset comes from it; or it is
      the page to show. */
  lemma PageKeepsPending(v: Session, id: nat)
    requires SessionOk(v) && Possible(v, PageArrives(id)) && id == v.screen.requestId
    ensures id in PageArrived(v, id).pending && PendingOk(PageArrived(v, id), id)
    ensures PageArrived(v, id).pending[id].begun == v.pending[id].begun
  {
    hide UpdatesOk, LatestOk, LogOk;
    assert PendingOk(v, id);
    var z := v.pending[id].served.value.z;
    if |z| > 0 {
      SnapIsNat(|z|, v.pending[id].refreshing.limit);
    }
    hide SnapOffset;
  }

  /** A page of an older refresh ends it; no other refresh is touched. */
  lemma PageTouchesOne(v: Session, id: nat)
    requires Possible(v, PageArrives(id))
    ensures var w := PageArrived(v, id);
            && w == v.(pending := w.pending)
            && (forall k :: k in w.pending ==> k in v.pending)
            && (forall k :: k in v.pending && k != id ==> k in w.pending && w.pending[k] == v.pending[k])
            && (id != v.screen.requestId ==> id !in w.pending)
  {
    hide SnapOffset, Served;
  }

  lemma PageKeepsLatest(v: Session, w: Session, id: nat)
    requires LatestOk(v) && w == v.(pending := w.pending) && id in v.pending
    requires forall k :: k in w.pending ==> k in v.pending
    requires forall k :: k in v.pending && k != id ==> k in w.pending && w.pending[k] == v.pending[k]
    requires id == v.screen.requestId ==> id in w.pending && w.pending[id].begun == v.pending[id].begun
    ensures LatestOk(w)
  {
    hide Served;
  }

  lemma PageKeepsOk(v: Session, id: nat)
    requires SessionOk(v) && Possible(v, PageArrives(id))
    ensures SessionOk(PageArrived(v, id))
  {
    var w := PageArrived(v, id);
    PageTouchesOne(v, id);
    if id == v.screen.requestId {
      PageKeepsPending(v, id);
    }
    hide PageArrived, LogOk, UpdatesOk, LatestOk, PendingOk;
    UpdatesKept(v, w);
    PageKeepsLatest(v, w, id);
    forall k | k in w.pending ensures PendingOk(w, k) {
      assert PendingOk(v, k);
      if k != id {
        PendingKept(v, w, k);
      }
    }
  }

  lemma NamesKeepUpdates(v: Session, id: nat)
    requires SessionOk(v) && Possible(v, NamesArrive(id))
    ensures UpdatesOk(NamesArrived(v, id))
  {
    var w := NamesArrived(v, id);
    assert PendingOk(v, id);
    forall u | u in v.updates ensures UpdateOk(w, u) && u.id != id && u.id <= v.screen.requestId {
      assert UpdateOk(v, u);
      UpdateKept(v, w, u);
    }
    hide SnapOffset, Served, LatestOk, LogOk;
    if id == v.screen.requestId {
      var u := w.updates[|v.updates|];
      assert UpdateOk(w, u);
      forall i | 0 <= i < |v.updates| ensures v.updates[i].id < id {
        assert v.updates[i] in v.updates;
      }
    }
  }

  lemma NamesKeepLatest(v: Session, id: nat)
    requires SessionOk(v) && Possible(v, NamesArrive(id))
    ensures LatestOk(NamesArrived(v, id))
  {
    hide SnapOffset, LogOk, UpdatesOk;
    assert PendingOk(v, id);
    assert v.pending[id].refreshing.answer.value.total == |v.pending[id].served.value.z|;
    assert id == v.screen.requestId ==> v.log[v.latest].limit == v.pending[id].refreshing.limit;
    hide Served, OffsetExplained, PendingOk;
  }

  lemma NamesKeepOk(v: Session, id: nat)
    requires SessionOk(v) && Possible(v, NamesArrive(id))
    ensures SessionOk(NamesArrived(v, id))
  {
    var w := NamesArrived(v, id);
    NamesKeepUpdates(v, id);
    NamesKeepLatest(v, id);
    forall k | k in w.pending ensures PendingOk(w, k) {
      assert PendingOk(v, k);
      PendingKept(v, w, k);
    }
    hide SnapOffset, Served, LogOk, UpdatesOk, LatestOk, PendingOk;
  }

  lemma FailureKeepsOk(v: Session, id: nat, message: string)
    requires SessionOk(v) && Possible(v, RequestFails(id, message))
    ensures SessionOk(RequestFailed(v, id, message))
  {
    var w := RequestFailed(v, id, message);
    assert PendingOk(v, id);
    UpdatesKept(v, w);
    forall k | k in w.pending ensures PendingOk(w, k) {
      assert PendingOk(v, k);
      PendingKept(v, w, k);
    }
    hide SnapOffset, Served, LogOk, UpdatesOk, PendingOk, OffsetExplained;
  }

  /** Moves that touch neither requests nor the table. */
  lemma QuietMoveKeepsOk(v: Session, m: Move)
    requires SessionOk(v) && (m.BoardsLoaded? || m.BoardChanges?)
    ensures SessionOk(Moved(v, m))
  {
    var w := Moved(v, m);
    if m.BoardChanges? {
      LogGrows(v.initial, v.log, w.log[|v.log|]);
    }
    UpdatesKept(v, w);
    forall k | k in w.pending ensures PendingOk(w, k) {
      assert PendingOk(v, k);
      PendingKept(v, w, k);
    }
    hide SnapOffset, Served, LogOk, UpdatesOk, LatestOk, PendingOk;
    LatestKept(v, w);
  }

  lemma MoveKeepsOk(v: Session, m: Move)
    requires SessionOk(v) && Possible(v, m)
    ensures SessionOk(Moved(v, m))
    ensures v.updates <= Moved(v, m).updates && v.initial == Moved(v, m).initial
  {
    hide SessionOk;
    match m
    case Start(edit) => RestartKeepsOk(v, edit);
    case BoardsLoaded(b) => QuietMoveKeepsOk(v, m);
    case BoardChanges(b, z) => QuietMoveKeepsOk(v, m);
    case Serve(id) => ServeKeepsOk(v, id);
    case PageArrives(id) => PageKeepsOk(v, id);
    case NamesArrive(id) => NamesKeepOk(v, id);
    case RequestFails(id, message) => FailureKeepsOk(v, id, message);
  }

  /** The moves are possible one after another from v, and lead to w. */
  ghost predicate Run(v: Session, moves: seq<Move>, w: Session)
    decreases |moves|
  {
    if moves == [] then v == w else Possible(v, moves[0]) && Run(Moved(v, moves[0]), moves[1..], w)
  }

  lemma {:induction false} RunKeepsOk(v: Session, moves: seq<Move>, w: Session)
    requires SessionOk(v) && Run(v, moves, w)
    ensures SessionOk(w) && v.updates <= w.updates && v.initial == w.initial
    decreases |moves|
  {
    hide SessionOk, Moved, Possible;
    if moves != [] {
      MoveKeepsOk(v, moves[0]);
      RunKeepsOk(Moved(v, moves[0]), moves[1..], w);
    }
  }

  function Opening(limit: nat, boards: map<string, Zset>): Session {
    Session(Screen(0, "", limit, 0, [], 0, ""), map[], boards, [], 0, [], {})
  }

  lemma OpeningIsOk(limit: nat, boards: map<string, Zset>)
    requires limit > 0
    ensures SessionOk(Opening(limit, boards))
  {
  }

  /** The page was served to refresh `id` after position `from` of the log, from what the board
      contained at that moment. */
  ghost predicate ServedFromBoard(
    boards: map<string, Zset>, log: seq<Fact>, id: nat, boardId: string, from: nat, s: Serving)
  {
    IsServing(log, id, boardId, from, s) && s.z == ContentAt(boards, log[..s.at], boardId)
  }

  /** What a table of the given offset, rows and total shows for the refresh that began at `begun`:
      one page of what its board contained when the page was served, at the offset the screen asked
      for, unless that was past the end of an earlier page of the same refresh; then at the last page
      of that one's content, which is the last page of what is shown if the size did not change. */
  ghost predicate AnswersRequest(
    boards: map<string, Zset>, log: seq<Fact>, begun: nat, first: Option<Serving>, served: Serving,
    offset: nat, rows: seq<Standing>, total: nat)
    requires begun < |log| && log[begun].BeganFact?
  {
    var BeganFact(id, boardId, limit, asked) := log[begun];
    && limit > 0
    && ServedFromBoard(boards, log, id, boardId, LastServed(begun, first), served)
    && rows == ServableOnly(Page(served.z, limit, offset)) && total == |served.z|
    && match first
       case None => offset == asked && !PastContent(served.z, limit, asked)
       case Some(s) =>
         && ServedFromBoard(boards, log, id, boardId, begun, s) && PastContent(s.z, limit, asked)
         && IsLastPage(offset, |s.z|, limit)
         && (total == |s.z| ==> IsLastPage(offset, total, limit))
  }

  lemma UpdateAnswers(w: Session, u: Update)
    requires LogOk(w.initial, w.log) && UpdateOk(w, u)
    ensures var limit := w.log[u.begun].limit;
            AnswersRequest(w.initial, w.log, u.begun, u.first, u.served, u.offset,
                           Served(u.served.z, limit, u.offset).scores, |u.served.z|)
  {
    if u.first.Some? {
      SnapIsLastPage(|u.first.value.z|, w.log[u.begun].limit, u.offset);
    }
  }

  /** Latest request wins.  Over every interleaving of refreshes, page changes, board changes and
      answers in any order: the table is updated by refreshes with strictly rising request ids; and
      once the latest refresh is out no more and did not fail, it decides rows, total and offset, for
      the board, limit and offset it captured (an empty table when no board was selected). */
  lemma LatestRequestWins(limit: nat, boards: map<string, Zset>, moves: seq<Move>, w: Session)
    returns (begun: nat)
    requires limit > 0 && Run(Opening(limit, boards), moves, w)
    ensures forall i, j :: 0 <= i < j < |w.updates| ==> w.updates[i].id < w.updates[j].id
    ensures w.screen.requestId > 0 ==>
              && begun < |w.log| && w.log[begun].BeganFact? && w.log[begun].id == w.screen.requestId
              && (forall k :: begun < k < |w.log| ==> !w.log[k].BeganFact?)
    ensures w.screen.requestId > 0 && w.screen.requestId !in w.pending && w.screen.requestId !in w.failed ==>
              if w.log[begun].boardId == "" then w.screen.rows == [] && w.screen.total == 0
              else exists first, served ::
                AnswersRequest(boards, w.log, begun, first, served, w.screen.offset, w.screen.rows, w.screen.total)
  {
    OpeningIsOk(limit, boards);
    RunKeepsOk(Opening(limit, boards), moves, w);
    begun := w.latest;
    hide Run, LogOk, PendingOk, AnswersRequest, Shows;
    var r := w.screen.requestId;
    if r > 0 && r !in w.pending && r !in w.failed && w.log[begun].boardId != "" {
      LatestUpdateAnswers(w);
    }
  }

  lemma LatestUpdateAnswers(w: Session)
    requires LogOk(w.initial, w.log) && UpdatesOk(w) && LatestOk(w)
    requires w.updates != [] && w.updates[|w.updates| - 1].id == w.screen.requestId
    ensures w.latest < |w.log| && w.log[w.latest].BeganFact?
    ensures exists first, served ::
              AnswersRequest(w.initial, w.log, w.latest, first, served, w.screen.offset, w.screen.rows, w.screen.total)
  {
    hide LogOk, Served, OffsetExplained;
    var u := w.updates[|w.updates| - 1];
    assert UpdateOk(w, u);
    UpdateAnswers(w, u);
    assert Shows(w, u);
    hide UpdatesOk, UpdateOk, LatestOk, AnswersRequest;
    assert AnswersRequest(
        w.initial, w.log, w.latest, u.first, u.served, w.screen.offset, w.screen.rows, w.screen.total);
  }

  /** A snapped page is not empty if the board kept its size between the two requests. */
  lemma SnappedPageHasRows(z: Zset, before: nat, limit: nat, offset: nat)
    requires limit > 0 && |z| == before && AllInRange(z) && IsLastPage(offset, before, limit)
    ensures Served(z, limit, offset).scores != []
  {
    InRangePageIsServed(z, limit, offset);
  }

  /** With scores in range a page is past its board's content exactly when its offset is. */
  lemma PastContentIff(z: Zset, limit: nat, offset: nat)
    requires limit > 0 && AllInRange(z)
    ensures PastContent(z, limit, offset) <==> 0 < |z| <= offset
  {
    InRangePageIsServed(z, limit, offset);
  }
}
