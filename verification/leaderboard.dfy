/**
 * The leaderboard page (src/pages/Leaderboard.tsx): one row per fetched
 * profile, ranked by position, with a trophy, medal or award for the top
 * three, the rank number otherwise, avatar initials, and a highlight on the
 * signed-in learner's own row.
 *
 * The store returns at most `Limit` profiles ordered by points, highest
 * first; the order of profiles with equal points is the store's.
 */
module Leaderboard {
  import opened Optional
  import Initials

  const Limit := 20

  /** A `profiles` row as fetched. */
  datatype Leader = Leader(id: string, fullName: Option<string>, level: int, points: int)

  datatype RankIcon = Trophy | Medal | Award

  /** What the rank column shows: an icon, or else the rank number. */
  datatype Marker = Icon(icon: RankIcon) | Number(rank: int)

  datatype Row = Row(rank: int, marker: Marker, initials: string, isCurrentUser: bool, leader: Leader)

  /** The page body: the rows, and whether the "No rankings yet" notice shows. */
  datatype Board = Board(rows: seq<Row>, noRankings: bool)

  /** What the store promises about the fetched list. */
  predicate StoreOrder(leaders: seq<Leader>)
  {
    && |leaders| <= Limit
    && forall i :: 0 < i < |leaders| ==> leaders[i - 1].points >= leaders[i].points
  }

  /** `getRankIcon`: an icon for the first three ranks, none for the rest. */
  function RankIconFor(rank: int): (r: Option<RankIcon>)
    ensures r == Some(Trophy) <==> rank == 1
    ensures r == Some(Medal) <==> rank == 2
    ensures r == Some(Award) <==> rank == 3
    ensures r.None? <==> rank < 1 || 3 < rank
  {
    if rank == 1 then Some(Trophy)
    else if rank == 2 then Some(Medal)
    else if rank == 3 then Some(Award)
    else None
  }

  /** The icon if there is one, otherwise the rank number. */
  function MarkerFor(rank: int): (m: Marker)
    ensures m.Number? <==> RankIconFor(rank).None?
    ensures m.Number? ==> m.rank == rank
    ensures m.Icon? ==> RankIconFor(rank) == Some(m.icon)
  {
    match RankIconFor(rank)
    case Some(icon) => Icon(icon)
    case None => Number(rank)
  }

  /** The row for the leader at position `index`; `me` is the signed-in
      user's id, if any. */
  function RowAt(leader: Leader, index: nat, me: Option<string>): Row
  {
    var rank := index + 1;
    Row(rank, MarkerFor(rank), Initials.Initials(leader.fullName), me == Some(leader.id), leader)
  }

  function RowsFrom(leaders: seq<Leader>, start: nat, me: Option<string>): (rows: seq<Row>)
    ensures |rows| == |leaders|
    ensures forall i :: 0 <= i < |leaders| ==> rows[i] == RowAt(leaders[i], start + i, me)
  {
    if |leaders| == 0 then []
    else [RowAt(leaders[0], start, me)] + RowsFrom(leaders[1..], start + 1, me)
  }

  /** The rendered page. */
  function Render(leaders: seq<Leader>, me: Option<string>): (b: Board)
    ensures |b.rows| == |leaders|
    ensures b.noRankings <==> |leaders| == 0
    ensures forall i :: 0 <= i < |leaders| ==> b.rows[i].leader == leaders[i]
  {
    Board(RowsFrom(leaders, 0, me), |leaders| == 0)
  }

  /** Ranks are the positions 1..n: in range, strictly increasing down the
      list, hence distinct even when points tie. */
  lemma RanksArePositions(leaders: seq<Leader>, me: Option<string>)
    ensures var rows := Render(leaders, me).rows;
      && (forall i :: 0 <= i < |rows| ==> rows[i].rank == i + 1)
      && (forall i :: 0 <= i < |rows| ==> 1 <= rows[i].rank <= |leaders|)
      && (forall i, j :: 0 <= i < j < |rows| ==> rows[i].rank < rows[j].rank)
  {
  }

  /** Every rank 1..n is held by exactly one row. */
  lemma EachRankOnce(leaders: seq<Leader>, me: Option<string>, k: int)
    requires 1 <= k <= |leaders|
    ensures var rows := Render(leaders, me).rows;
      && rows[k - 1].rank == k
      && forall i :: 0 <= i < |rows| && rows[i].rank == k ==> i == k - 1
  {
  }

  /** With the store's ordering, a better rank never has fewer points. */
  lemma {:induction false} RankOrderFollowsPoints(leaders: seq<Leader>, me: Option<string>, i: int, j: int)
    requires StoreOrder(leaders)
    requires 0 <= i < |leaders| && 0 <= j < |leaders|
    requires Render(leaders, me).rows[i].rank < Render(leaders, me).rows[j].rank
    ensures Render(leaders, me).rows[i].leader.points >= Render(leaders, me).rows[j].leader.points
    decreases j - i
  {
    if i + 1 < j {
      RankOrderFollowsPoints(leaders, me, i + 1, j);
    }
  }

  /** The rank number shows exactly from the fourth row on. */
  lemma NumberFromFourthRow(leaders: seq<Leader>, me: Option<string>, i: int)
    requires 0 <= i < |leaders|
    ensures var row := Render(leaders, me).rows[i];
      && (row.marker.Number? <==> row.rank >= 4)
      && (row.marker.Number? ==> row.marker.rank == row.rank)
  {
  }

  /** A row is highlighted exactly when it is the signed-in user's, so with
      distinct profile ids at most one row is. */
  lemma CurrentUserRow(leaders: seq<Leader>, me: Option<string>)
    requires forall i, j :: 0 <= i < j < |leaders| ==> leaders[i].id != leaders[j].id
    ensures var rows := Render(leaders, me).rows;
      && (forall i :: 0 <= i < |rows| ==> (rows[i].isCurrentUser <==> me == Some(leaders[i].id)))
      && (forall i, j :: 0 <= i < |rows| && 0 <= j < |rows| && rows[i].isCurrentUser && rows[j].isCurrentUser ==> i == j)
  {
  }

  /** Each row's avatar shows that leader's initials. */
  lemma RowInitials(leaders: seq<Leader>, me: Option<string>, i: int)
    requires 0 <= i < |leaders|
    ensures Render(leaders, me).rows[i].initials == Initials.Initials(leaders[i].fullName)
    ensures |Render(leaders, me).rows[i].initials| > 0
  {
  }
}
