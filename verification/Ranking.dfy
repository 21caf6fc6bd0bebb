/** The order of a leaderboard, its pages, and the readers that serve them. */
module Ranking {
  import opened Text
  import opened Ledger
  import opened Replay

  datatype Row = Row(playerId: string, score: int)

  /** Rank is 1-based; rank 1 is the highest score. */
  datatype Standing = Standing(playerId: string, score: int, rank: int)

  /** Higher score first; equal scores by player id, greatest first. */
  predicate Above(a: Row, b: Row) {
    a.score > b.score || (a.score == b.score && Less(b.playerId, a.playerId))
  }

  lemma AboveIsStrictTotalOrder(a: Row, b: Row, c: Row)
    ensures !Above(a, a)
    ensures Above(a, b) && Above(b, c) ==> Above(a, c)
    ensures a != b && a.playerId != b.playerId ==> Above(a, b) != Above(b, a)
    ensures Above(a, b) ==> !Above(b, a)
  {
    LessTrichotomy(a.playerId, a.playerId);
    LessTrichotomy(a.playerId, b.playerId);
    if Above(a, b) && Above(b, c) && a.score == b.score == c.score {
      LessTransitive(c.playerId, b.playerId, a.playerId);
    }
  }

  predicate Sorted(rows: seq<Row>) {
    forall i, j :: 0 <= i < j < |rows| ==> Above(rows[i], rows[j])
  }

  /** rows are exactly the members of z with their scores, in leaderboard order. */
  ghost predicate IsRanking(rows: seq<Row>, z: Zset) {
    && Sorted(rows)
    && forall r :: r in rows <==> r.playerId in z && z[r.playerId] == r.score
  }

  /** Two sorted lists of the same rows are the same list: the result of sorting does not depend
      on the order of the input or on the sort algorithm. */
  lemma {:induction false} SortedIsUnique(a: seq<Row>, b: seq<Row>)
    requires Sorted(a) && Sorted(b) && forall r :: r in a <==> r in b
    ensures a == b
  {
    if a == [] {
      if b != [] {
        HeadIsMember(b);
        assert false;
      }
    } else if b == [] {
      HeadIsMember(a);
      assert false;
    } else {
      SameHead(a, b);
      TailMembers(a);
      TailMembers(b);
      SortedIsUnique(a[1..], b[1..]);
      assert a == [a[0]] + a[1..] && b == [b[0]] + b[1..];
    }
  }

  lemma HeadIsMember(a: seq<Row>)
    requires a != []
    ensures a[0] in a
  {
  }

  lemma SameHead(a: seq<Row>, b: seq<Row>)
    requires a != [] && b != [] && Sorted(a) && Sorted(b) && forall r :: r in a <==> r in b
    ensures a[0] == b[0]
  {
    assert a[0] in b && b[0] in a;
    var i :| 0 <= i < |b| && b[i] == a[0];
    var j :| 0 <= j < |a| && a[j] == b[0];
    if i > 0 && j > 0 {
      AboveIsStrictTotalOrder(a[0], b[0], a[0]);
      assert false;
    }
  }

  lemma TailMembers(a: seq<Row>)
    requires a != [] && Sorted(a)
    ensures forall r :: r in a[1..] <==> r in a && r != a[0]
  {
    forall r | r in a[1..] ensures r != a[0] {
      var i :| 0 <= i < |a[1..]| && a[1..][i] == r;
      assert Above(a[0], a[i + 1]);
      AboveIsStrictTotalOrder(r, r, r);
    }
  }

  // ---- sorting ----------------------------------------------------------------------------

  /** sort.Slice with the standings comparator, on rows of different players. */
  method SortRows(rows: seq<Row>) returns (sorted: seq<Row>)
    requires forall i, j :: 0 <= i < j < |rows| ==> rows[i].playerId != rows[j].playerId
    ensures Sorted(sorted) && |sorted| == |rows|
    ensures forall r :: r in sorted <==> r in rows
  {
    sorted := [];
    for i := 0 to |rows|
      invariant Sorted(sorted) && |sorted| == i
      invariant forall r :: r in sorted <==> r in rows[..i]
    {
      assert rows[..i + 1] == rows[..i] + [rows[i]];
      assert forall r :: r in rows[..i] ==> r.playerId != rows[i].playerId;
      sorted := Insert(sorted, rows[i]);
    }
    assert rows[..|rows|] == rows;
  }

  method Insert(sorted: seq<Row>, row: Row) returns (sorted': seq<Row>)
    requires Sorted(sorted) && forall r :: r in sorted ==> r.playerId != row.playerId
    ensures Sorted(sorted') && |sorted'| == |sorted| + 1
    ensures forall r :: r in sorted' <==> r == row || r in sorted
  {
    var k := 0;
    while k < |sorted| && Above(sorted[k], row)
      invariant 0 <= k <= |sorted|
      invariant forall i :: 0 <= i < k ==> Above(sorted[i], row)
    {
      k := k + 1;
    }
    sorted' := sorted[..k] + [row] + sorted[k..];
    InsertIsSorted(sorted, row, k);
  }

  lemma InsertIsSorted(sorted: seq<Row>, row: Row, k: nat)
    requires Sorted(sorted) && k <= |sorted| && forall r :: r in sorted ==> r.playerId != row.playerId
    requires forall i :: 0 <= i < k ==> Above(sorted[i], row)
    requires k < |sorted| ==> !Above(sorted[k], row)
    ensures var s := sorted[..k] + [row] + sorted[k..];
            Sorted(s) && forall r :: r in s <==> r == row || r in sorted
  {
    var s := sorted[..k] + [row] + sorted[k..];
    forall i | k <= i < |sorted| ensures Above(row, sorted[i]) {
      AboveIsStrictTotalOrder(sorted[k], row, row);
      AboveIsStrictTotalOrder(row, sorted[k], sorted[i]);
    }
    assert sorted == sorted[..k] + sorted[k..];
  }

  /** The rows of a sorted set in leaderboard order. */
  method RankRows(z: Zset) returns (rows: seq<Row>)
    ensures IsRanking(rows, z) && |rows| == |z|
  {
    var unsorted: seq<Row> := [];
    var todo := z.Keys;
    while todo != {}
      invariant todo <= z.Keys && |unsorted| + |todo| == |z|
      invariant forall r :: r in unsorted <==> r.playerId in z && r.playerId !in todo && z[r.playerId] == r.score
      invariant forall i, j :: 0 <= i < j < |unsorted| ==> unsorted[i].playerId != unsorted[j].playerId
    {
      var p :| p in todo;
      todo := todo - {p};
      assert forall i :: 0 <= i < |unsorted| ==> unsorted[i] in unsorted;
      unsorted := unsorted + [Row(p, z[p])];
    }
    rows := SortRows(unsorted);
  }

  ghost function InsertRow(rows: seq<Row>, row: Row): seq<Row> {
    if rows == [] || !Above(rows[0], row) then [row] + rows else [rows[0]] + InsertRow(rows[1..], row)
  }

  lemma {:induction false} InsertRowIsSorted(rows: seq<Row>, row: Row)
    requires Sorted(rows) && forall r :: r in rows ==> r.playerId != row.playerId
    ensures Sorted(InsertRow(rows, row))
    ensures forall r :: r in InsertRow(rows, row) <==> r == row || r in rows
    ensures |InsertRow(rows, row)| == |rows| + 1
  {
    if rows == [] {
    } else if !Above(rows[0], row) {
      InsertIsSorted(rows, row, 0);
      assert rows[..0] + [row] + rows[0..] == [row] + rows;
    } else {
      InsertRowIsSorted(rows[1..], row);
      assert rows == [rows[0]] + rows[1..];
      var s := InsertRow(rows[1..], row);
      forall r | r in s ensures Above(rows[0], r) {
        if r != row {
          var i :| 0 <= i < |rows[1..]| && rows[1..][i] == r;
          assert rows[i + 1] == r;
        }
      }
    }
  }

  lemma PlayersAreDistinct(rows: seq<Row>, z: Zset, i: nat, j: nat)
    requires IsRanking(rows, z) && i < j < |rows|
    ensures rows[i].playerId != rows[j].playerId
  {
    assert rows[i] in rows && rows[j] in rows;
    AboveIsStrictTotalOrder(rows[i], rows[j], rows[i]);
  }

  lemma {:induction false} PrefixCount(rows: seq<Row>, z: Zset, i: nat)
    requires IsRanking(rows, z) && i <= |rows|
    ensures |set j: nat | j < i :: rows[j].playerId| == i
  {
    if i > 0 {
      PrefixCount(rows, z, i - 1);
      var smaller := set j: nat | j < i - 1 :: rows[j].playerId;
      forall j: nat | j < i - 1 ensures rows[j].playerId != rows[i - 1].playerId {
        PlayersAreDistinct(rows, z, j, i - 1);
      }
      assert (set j: nat | j < i :: rows[j].playerId) == smaller + {rows[i - 1].playerId};
    }
  }

  lemma {:induction false} RankingExists(z: Zset)
    ensures exists rows :: IsRanking(rows, z)
    decreases |z|
  {
    if z == map[] {
      assert IsRanking([], z);
    } else {
      var p :| p in z;
      var rest := z - {p};
      assert rest.Keys == z.Keys - {p};
      assert |rest.Keys| < |z.Keys| == |z| && |rest.Keys| == |rest|;
      RankingExists(rest);
      var rows :| IsRanking(rows, rest);
      InsertRowIsSorted(rows, Row(p, z[p]));
      assert IsRanking(InsertRow(rows, Row(p, z[p])), z);
    }
  }

  lemma {:induction false} RankingLength(rows: seq<Row>, z: Zset)
    requires IsRanking(rows, z)
    ensures |rows| == |z|
  {
    PrefixCount(rows, z, |rows|);
    var players := set j: nat | j < |rows| :: rows[j].playerId;
    forall p | p in z ensures p in players {
      assert Row(p, z[p]) in rows;
    }
    forall p | p in players ensures p in z {
      var j: nat :| j < |rows| && rows[j].playerId == p;
      assert rows[j] in rows;
    }
    assert players == z.Keys;
  }

  /** The leaderboard of a sorted set. */
  ghost function Ranked(z: Zset): (rows: seq<Row>)
    ensures IsRanking(rows, z)
    ensures |rows| == |z|
  {
    RankingExists(z);
    var rows :| IsRanking(rows, z);
    RankingLength(rows, z);
    rows
  }

  lemma RankingIsRanked(rows: seq<Row>, z: Zset)
    requires IsRanking(rows, z)
    ensures rows == Ranked(z)
  {
    SortedIsUnique(rows, Ranked(z));
  }

  function RankAll(rows: seq<Row>): (out: seq<Standing>)
    ensures |out| == |rows|
    ensures forall i :: 0 <= i < |rows| ==> out[i] == Standing(rows[i].playerId, rows[i].score, i + 1)
  {
    seq(|rows|, i requires 0 <= i < |rows| => Standing(rows[i].playerId, rows[i].score, i + 1))
  }

  ghost function Standings(z: Zset): (out: seq<Standing>)
    ensures |out| == |z|
  {
    RankAll(Ranked(z))
  }

  function Slice<T>(s: seq<T>, limit: int, offset: nat): seq<T> {
    if limit <= 0 || offset >= |s| then [] else s[offset..if offset + limit < |s| then offset + limit else |s|]
  }

  /** One page of the leaderboard, ranks continuing across pages. */
  ghost function Page(z: Zset, limit: int, offset: nat): seq<Standing> {
    Slice(Standings(z), limit, offset)
  }

  // ---- what a rank means ------------------------------------------------------------------

  /** The members of z before a player with a score: those with a higher score, and those with the
      same score and a bytewise greater id. */
  ghost function Ahead(z: Zset, score: int, playerId: string): set<string> {
    set q | q in z && (z[q] > score || (z[q] == score && BytewiseBefore(playerId, q)))
  }

  /** A row shows its player's score, and as rank one plus the number of members before it. */
  ghost predicate Placed(s: Standing, z: Zset) {
    && s.playerId in z && s.score == z[s.playerId]
    && s.rank == 1 + |Ahead(z, s.score, s.playerId)|
  }

  lemma PrefixIsAhead(rows: seq<Row>, z: Zset, i: nat)
    requires IsRanking(rows, z) && i < |rows|
    ensures (set j: nat | j < i :: rows[j].playerId) == Ahead(z, rows[i].score, rows[i].playerId)
  {
    var firsts := set j: nat | j < i :: rows[j].playerId;
    var ahead := Ahead(z, rows[i].score, rows[i].playerId);
    forall q | q in z ensures q in ahead <==> Above(Row(q, z[q]), rows[i]) {
      LessIff(rows[i].playerId, q);
    }
    hide BytewiseBefore;
    forall q | q in ahead ensures q in firsts {
      assert Row(q, z[q]) in rows;
      var j :| 0 <= j < |rows| && rows[j] == Row(q, z[q]);
      AboveIsStrictTotalOrder(rows[i], rows[j], rows[i]);
    }
    forall q | q in firsts ensures q in ahead {
      var j: nat :| j < i && rows[j].playerId == q;
      assert rows[j] in rows;
    }
  }

  /** A player's rank is one plus the number of members with a higher score, or the same score and a
      bytewise greater id; and no two ranks share a player. */
  lemma RankCountsBetter(z: Zset, i: nat)
    requires i < |z|
    ensures Placed(Standings(z)[i], z)
    ensures Standings(z)[i].rank == i + 1
    ensures forall j :: 0 <= j < i ==> Standings(z)[j].playerId != Standings(z)[i].playerId
  {
    var rows := Ranked(z);
    PrefixIsAhead(rows, z, i);
    PrefixCount(rows, z, i);
    assert rows[i] in rows;
    forall j: nat | j < i ensures rows[j].playerId != rows[i].playerId {
      PlayersAreDistinct(rows, z, j, i);
    }
  }

  /** And every rank from 1 to the board size is there: the board has one row per member. */
  lemma EveryMemberIsPlaced(z: Zset, p: string)
    requires p in z
    ensures exists i :: 0 <= i < |z| && Standings(z)[i].playerId == p
  {
    assert Row(p, z[p]) in Ranked(z);
    var i :| 0 <= i < |z| && Ranked(z)[i] == Row(p, z[p]);
    assert Standings(z)[i].playerId == p;
  }

  // ---- the readers ------------------------------------------------------------------------

  function Wrap64(x: int): int {
    (x + INT64_MAX + 1) % (2 * (INT64_MAX + 1)) - INT64_MAX - 1
  }

  lemma WrapIsIdentity(x: int)
    requires InInt64(x)
    ensures Wrap64(x) == x
  {
  }

  /** ZREVRANGE, with Redis's reading of negative and oversized bounds. */
  method ZRevRange(z: Zset, start: int, stop: int) returns (rows: seq<Row>)
    ensures var n := |z|;
            var lo := if start < 0 then (if start + n < 0 then 0 else start + n) else start;
            var hi := if stop < 0 then stop + n else if stop >= n then n - 1 else stop;
            rows == if lo > hi || lo >= n then [] else Ranked(z)[lo..hi + 1]
  {
    var all := RankRows(z);
    RankingIsRanked(all, z);
    var n := |all|;
    var lo := if start < 0 then (if start + n < 0 then 0 else start + n) else start;
    var hi := if stop < 0 then stop + n else if stop >= n then n - 1 else stop;
    rows := if lo > hi || lo >= n then [] else all[lo..hi + 1];
  }

  predicate Servable(s: Standing) {
    InInt64(s.score)
  }

  function ServableOnly(page: seq<Standing>): seq<Standing> {
    if page == [] then [] else
      var rest := ServableOnly(page[..|page| - 1]);
      if Servable(page[|page| - 1]) then rest + [page[|page| - 1]] else rest
  }

  /** The sorted-set rows at positions offset.. give the page. */
  predicate RowsOfPage(rows: seq<Row>, page: seq<Standing>, offset: nat) {
    |rows| == |page|
    && forall i :: 0 <= i < |rows| ==> page[i] == Standing(rows[i].playerId, rows[i].score, offset + i + 1)
  }

  lemma RangeIsPage(ranked: seq<Row>, limit: int, offset: nat, rows: seq<Row>)
    requires limit > 0
    requires var hi := if offset + limit - 1 >= |ranked| then |ranked| - 1 else offset + limit - 1;
             rows == if offset > hi || offset >= |ranked| then [] else ranked[offset..hi + 1]
    ensures RowsOfPage(rows, Slice(RankAll(ranked), limit, offset), offset)
  {
  }

  /** The upper bound in int64: past the largest value it wraps to a negative one. */
  lemma StopBound(offset: nat, limit: int)
    requires 0 < limit <= INT64_MAX && offset <= INT64_MAX
    ensures offset + limit - 1 <= INT64_MAX ==> Wrap64(Wrap64(offset + limit) - 1) == offset + limit - 1
    ensures offset + limit - 1 > INT64_MAX ==>
              Wrap64(Wrap64(offset + limit) - 1) == offset + limit - 1 - 2 * (INT64_MAX + 1)
  {
  }

  /** What ListStandings serves: the page, but nothing at all when the upper bound wrapped. */
  ghost function ServedRows(z: Zset, limit: int, offset: nat): seq<Standing> {
    if limit > 0 && offset + limit - 1 > INT64_MAX then [] else ServableOnly(Page(z, limit, offset))
  }

  lemma {:induction false} ServableRows(page: seq<Standing>)
    ensures forall s :: s in ServableOnly(page) ==> s in page && InInt64(s.score)
    ensures forall s :: s in page && InInt64(s.score) ==> s in ServableOnly(page)
  {
    if page != [] {
      ServableRows(page[..|page| - 1]);
      assert page == page[..|page| - 1] + [page[|page| - 1]];
    }
  }

  /** Every row of every page is placed. */
  lemma PageIsPlaced(z: Zset, limit: int, offset: nat)
    ensures forall s :: s in Page(z, limit, offset) ==> Placed(s, z)
    ensures forall s :: s in ServedRows(z, limit, offset) ==> Placed(s, z)
  {
    ServableRows(Page(z, limit, offset));
    forall s | s in Page(z, limit, offset) ensures Placed(s, z) {
      var k :| 0 <= k < |Page(z, limit, offset)| && Page(z, limit, offset)[k] == s;
      RankCountsBetter(z, offset + k);
    }
  }

  /** One page of the live board and the board size.  A member whose score no int64 holds is left
      out of its page; ranks stay positional. */
  method ListStandings(z: Zset, limit: int, offset: nat) returns (out: seq<Standing>, total: nat)
    requires |z| <= INT64_MAX && InInt64(limit) && offset <= INT64_MAX
    ensures total == |z|
    ensures out == ServedRows(z, limit, offset)
    ensures forall s :: s in out ==> Placed(s, z)
  {
    total := |z|;
    if limit <= 0 {
      return [], total;
    }
    StopBound(offset, limit);
    var stop := Wrap64(Wrap64(offset + limit) - 1);
    var zs := ZRevRange(z, offset, stop);
    ghost var page := if stop < 0 then [] else Page(z, limit, offset);
    if stop >= 0 {
      RangeIsPage(Ranked(z), limit, offset, zs);
    }
    out := RowsToStandings(zs, offset, page);
    PageIsPlaced(z, limit, offset);
  }

  /** With scores in range the page served is the page of the leaderboard if and only if the upper
      bound fits int64, or the page is empty anyway. */
  lemma PageIsServedIff(z: Zset, limit: int, offset: nat)
    requires AllInRange(z)
    ensures ServedRows(z, limit, offset) == Page(z, limit, offset)
       <==> limit <= 0 || offset + limit - 1 <= 0x7fff_ffff_ffff_ffff || offset >= |z|
  {
    InRangePageIsServed(z, limit, offset);
    if limit > 0 && offset < |z| {
      assert |Page(z, limit, offset)| > 0;
    }
  }

  method RowsToStandings(zs: seq<Row>, offset: nat, ghost page: seq<Standing>) returns (out: seq<Standing>)
    requires RowsOfPage(zs, page, offset)
    ensures out == ServableOnly(page)
  {
    out := [];
    for i := 0 to |zs|
      invariant out == ServableOnly(page[..i])
    {
      assert page[..i + 1][..i] == page[..i];
      if InInt64(zs[i].score) {
        out := out + [Standing(zs[i].playerId, zs[i].score, offset + i + 1)];
      }
    }
    assert page[..|zs|] == page;
  }

  lemma {:induction false} AllServable(page: seq<Standing>)
    requires forall i :: 0 <= i < |page| ==> Servable(page[i])
    ensures ServableOnly(page) == page
  {
    if page != [] {
      AllServable(page[..|page| - 1]);
      assert page == page[..|page| - 1] + [page[|page| - 1]];
    }
  }

  /** With every score in range, the page served is the page of the leaderboard. */
  lemma InRangePageIsServed(z: Zset, limit: int, offset: nat)
    requires AllInRange(z)
    ensures ServableOnly(Page(z, limit, offset)) == Page(z, limit, offset)
  {
    assert forall i :: 0 <= i < |z| ==> Ranked(z)[i] in Ranked(z);
    AllServable(Page(z, limit, offset));
  }

  datatype Found = NotFound | Unusable | At(standing: Standing, total: nat)

  /** ZREVRANK of a member: its position in the ranking. */
  method ZRevRank(z: Zset, playerId: string) returns (rank: nat)
    requires playerId in z
    ensures rank < |z| && Ranked(z)[rank] == Row(playerId, z[playerId])
  {
    var rows := RankRows(z);
    RankingIsRanked(rows, z);
    ghost var i :| 0 <= i < |rows| && rows[i] == Row(playerId, z[playerId]);
    rank := 0;
    while rows[rank].playerId != playerId
      invariant 0 <= rank <= i
      decreases i - rank
    {
      rank := rank + 1;
    }
    assert rows[rank] in rows;
  }

  /** A player's standing and the board size. */
  method GetStanding(z: Zset, playerId: string) returns (r: Found)
    ensures r.NotFound? <==> playerId !in z
    ensures r.Unusable? <==> playerId in z && !InInt64(z[playerId])
    ensures r.At? ==> r.total == |z| && r.standing.playerId == playerId && Placed(r.standing, z)
                      && 1 <= r.standing.rank <= |z| && Standings(z)[r.standing.rank - 1] == r.standing
  {
    if playerId !in z {
      return NotFound;
    }
    var rank := ZRevRank(z, playerId);
    if !InInt64(z[playerId]) {
      return Unusable;
    }
    RankCountsBetter(z, rank);
    return At(Standing(playerId, z[playerId], rank + 1), |z|);
  }

  // ---- walks over pages -------------------------------------------------------------------

  /** The first k pages of a walk with a fixed page size, joined. */
  ghost function JoinedPages(z: Zset, limit: nat, k: nat): seq<Standing> {
    if k == 0 then [] else JoinedPages(z, limit, k - 1) + Page(z, limit, (k - 1) * limit)
  }

  lemma NextSliceJoins<T>(s: seq<T>, limit: nat, offset: nat)
    requires limit > 0
    ensures s[..if offset < |s| then offset else |s|] + Slice(s, limit, offset)
         == s[..if offset + limit < |s| then offset + limit else |s|]
  {
  }

  /** Pages at offsets 0, L, 2L, ... tile the leaderboard: joined they are its first k * L
      standings, so enough of them are the whole board, every member once, ranks 1 to total. */
  lemma {:induction false} PagesTile(z: Zset, limit: nat, k: nat)
    requires limit > 0
    ensures JoinedPages(z, limit, k) == Standings(z)[..if k * limit < |z| then k * limit else |z|]
  {
    if k == 0 {
      assert 0 * limit == 0;
    } else {
      PagesTile(z, limit, k - 1);
      NextSliceJoins(Standings(z), limit, (k - 1) * limit);
      assert k * limit == (k - 1) * limit + limit;
    }
  }
}
