/** The leaderboard handler of backend/app.py: Bloom Points summed per
    community, in a dict that remembers first appearance, then listed
    and sorted by points, highest first. */
module Leaderboard {
  import opened Common
  import opened Users

  /** One row of the leaderboard reply: `{'community': ..., 'points': ...}`. */
  datatype Entry = Entry(community: string, points: int)

  // ----- Reference definitions, read from the end of the user list so that
  // they follow the handler's loop one record at a time -----

  /** The communities of `users`, in order of first appearance (the key
      order of the handler's dict). */
  function Communities(users: seq<User>): (cs: seq<string>)
    ensures NoDuplicates(cs)
    ensures forall c :: c in cs <==> exists u :: u in users && u.community == c
    decreases |users|
  {
    if users == [] then []
    else
      var init := users[..|users| - 1];
      var last := users[|users| - 1];
      assert users == init + [last];
      var cs := Communities(init);
      if last.community in cs then cs else cs + [last.community]
  }

  /** The sum of the points of the members of community `c`. */
  function CommunityTotal(users: seq<User>, c: string): int
    decreases |users|
  {
    if users == [] then 0
    else
      var last := users[|users| - 1];
      CommunityTotal(users[..|users| - 1], c) + (if last.community == c then last.bloomPoints else 0)
  }

  /** The sum of everybody's points. */
  function TotalPoints(users: seq<User>): int
    decreases |users|
  {
    if users == [] then 0 else TotalPoints(users[..|users| - 1]) + users[|users| - 1].bloomPoints
  }

  /** The rows for the communities `names`, in that order. */
  function Tally(names: seq<string>, users: seq<User>): (t: seq<Entry>)
    ensures |t| == |names|
    ensures forall i :: 0 <= i < |names| ==> t[i] == Entry(names[i], CommunityTotal(users, names[i]))
  {
    if names == [] then [] else [Entry(names[0], CommunityTotal(users, names[0]))] + Tally(names[1..], users)
  }

  /** The rows of the dict before sorting: one per community, first appearance first. */
  function Standings(users: seq<User>): seq<Entry> {
    Tally(Communities(users), users)
  }

  function SumPoints(board: seq<Entry>): int {
    if board == [] then 0 else board[0].points + SumPoints(board[1..])
  }

  predicate SortedDesc(board: seq<Entry>) {
    forall i, j :: 0 <= i < j < |board| ==> board[i].points >= board[j].points
  }

  predicate DistinctCommunities(board: seq<Entry>) {
    forall i, j :: 0 <= i < j < |board| ==> board[i].community != board[j].community
  }

  // ----- `leaderboard.sort(key=lambda x: x['points'], reverse=True)`: a
  // stable sort, highest points first, as an insertion sort -----

  /** Places `e` before the first row with at most its points, so that `e`,
      which came first in the input, stays ahead of rows with equal points. */
  function Insert(e: Entry, board: seq<Entry>): (r: seq<Entry>)
    requires SortedDesc(board)
    ensures SortedDesc(r)
    ensures multiset(r) == multiset(board) + multiset{e}
    ensures |r| == |board| + 1 && (r[0] == e || (board != [] && r[0] == board[0]))
  {
    if board == [] || board[0].points <= e.points then
      SortedCons(e, board);
      [e] + board
    else
      var rest := Insert(e, board[1..]);
      InsertBehind(e, board, rest);
      [board[0]] + rest
  }

  /** Inserting behind the first row: that row stays in front. */
  lemma InsertBehind(e: Entry, board: seq<Entry>, rest: seq<Entry>)
    requires SortedDesc(board) && board != [] && e.points < board[0].points
    requires SortedDesc(rest) && multiset(rest) == multiset(board[1..]) + multiset{e}
    requires |rest| == |board| && (rest[0] == e || (|board| > 1 && rest[0] == board[1]))
    ensures SortedDesc([board[0]] + rest)
    ensures multiset([board[0]] + rest) == multiset(board) + multiset{e}
  {
    assert board == [board[0]] + board[1..];
    SortedCons(board[0], rest);
  }

  /** A row with at least the points of the first row can go in front. */
  lemma SortedCons(x: Entry, board: seq<Entry>)
    requires SortedDesc(board) && (board == [] || board[0].points <= x.points)
    ensures SortedDesc([x] + board)
  {
    var r := [x] + board;
    forall i, j | 0 <= i < j < |r| ensures r[i].points >= r[j].points {
      if i == 0 && j > 1 {
        assert board[0].points >= board[j - 1].points;
      }
    }
  }

  function SortDesc(s: seq<Entry>): (r: seq<Entry>)
    ensures SortedDesc(r)
    ensures multiset(r) == multiset(s)
  {
    if s == [] then []
    else
      assert s == [s[0]] + s[1..];
      Insert(s[0], SortDesc(s[1..]))
  }

  /** What the handler's reply is: sorted by points, highest first; a
      reordering of the per-community rows; one row per community that some
      user belongs to, and no other; each row's points are its members'
      total; and the rows together account for every user's points. */
  ghost predicate IsRanking(users: seq<User>, board: seq<Entry>) {
    && SortedDesc(board)
    && multiset(board) == multiset(Standings(users))
    && DistinctCommunities(board)
    && (forall e :: e in board ==> e.points == CommunityTotal(users, e.community))
    && (set e | e in board :: e.community) == (set u | u in users :: u.community)
    && SumPoints(board) == TotalPoints(users)
  }

  /** The accumulation loop of get_leaderboard: `community_points`, kept as
      its key order `names` and its contents `totals`. */
  method Accumulate(users: seq<User>) returns (names: seq<string>, totals: map<string, int>)
    ensures names == Communities(users)
    ensures forall c :: c in totals <==> c in names
    ensures forall c :: c in totals ==> totals[c] == CommunityTotal(users, c)
  {
    names, totals := [], map[];
    for k := 0 to |users|
      invariant Accumulated(users, k, names, totals)
    {
      var community := users[k].community;
      var points := users[k].bloomPoints;
      if community in totals {
        AccumulateKnown(users, k, names, totals);
        totals := totals[community := totals[community] + points];
      } else {
        AccumulateNew(users, k, names, totals);
        totals := totals[community := points];
        names := names + [community];
      }
    }
    assert users[..|users|] == users;
  }

  /** get_leaderboard: accumulate, list the dict's items, sort. */
  method Rank(users: seq<User>) returns (board: seq<Entry>)
    ensures IsRanking(users, board)
  {
    var names, totals := Accumulate(users);
    var rows := seq(|names|, i requires 0 <= i < |names| => Entry(names[i], totals[names[i]]));
    assert rows == Standings(users);
    board := SortDesc(rows);
    RankingFacts(users, board);
  }

  // ----- Lemmas -----

  lemma {:induction false} InsertSum(e: Entry, board: seq<Entry>)
    requires SortedDesc(board)
    ensures SumPoints(Insert(e, board)) == e.points + SumPoints(board)
    decreases |board|
  {
    if !(board == [] || board[0].points <= e.points) {
      InsertSum(e, board[1..]);
      assert ([board[0]] + Insert(e, board[1..]))[1..] == Insert(e, board[1..]);
    } else {
      assert ([e] + board)[1..] == board;
    }
  }

  /** Sorting neither adds nor loses points. */
  lemma {:induction false} SortKeepsSum(s: seq<Entry>)
    ensures SumPoints(SortDesc(s)) == SumPoints(s)
    decreases |s|
  {
    if s != [] {
      SortKeepsSum(s[1..]);
      InsertSum(s[0], SortDesc(s[1..]));
    }
  }

  /** One more user, seen by the loop, adds its community if it is new. */
  lemma PrefixCommunities(users: seq<User>, k: nat)
    requires k < |users|
    ensures Communities(users[..k + 1]) ==
            (var cs := Communities(users[..k]);
             if users[k].community in cs then cs else cs + [users[k].community])
  {
    assert users[..k + 1][..k] == users[..k];
  }

  /** One more user, seen by the loop, adds its points to its own
      community's total and to no other. */
  lemma PrefixTotal(users: seq<User>, k: nat, c: string)
    requires k < |users|
    ensures CommunityTotal(users[..k + 1], c) ==
            CommunityTotal(users[..k], c) + (if users[k].community == c then users[k].bloomPoints else 0)
  {
    assert users[..k + 1][..k] == users[..k];
  }

  /** The accumulation invariant after the first `k` users. */
  ghost predicate Accumulated(users: seq<User>, k: nat, names: seq<string>, totals: map<string, int>)
    requires k <= |users|
  {
    && names == Communities(users[..k])
    && (forall c :: c in totals <==> c in names)
    && (forall c :: c in totals ==> totals[c] == CommunityTotal(users[..k], c))
  }

  /** A loop iteration for a community already in the dictionary keeps the
      invariant: its total grows by the user's points. */
  lemma AccumulateKnown(users: seq<User>, k: nat, names: seq<string>, totals: map<string, int>)
    requires k < |users| && Accumulated(users, k, names, totals)
    requires users[k].community in totals
    ensures Accumulated(users, k + 1, names,
                        totals[users[k].community := totals[users[k].community] + users[k].bloomPoints])
  {
    var c := users[k].community;
    var updated := totals[c := totals[c] + users[k].bloomPoints];
    PrefixCommunities(users, k);
    forall d | d in updated ensures updated[d] == CommunityTotal(users[..k + 1], d) {
      PrefixTotal(users, k, d);
    }
  }

  /** A loop iteration for a community seen for the first time keeps the
      invariant: the community is added with the user's points. */
  lemma AccumulateNew(users: seq<User>, k: nat, names: seq<string>, totals: map<string, int>)
    requires k < |users| && Accumulated(users, k, names, totals)
    requires users[k].community !in totals
    ensures Accumulated(users, k + 1, names + [users[k].community],
                        totals[users[k].community := users[k].bloomPoints])
  {
    var c := users[k].community;
    var updated := totals[c := users[k].bloomPoints];
    PrefixCommunities(users, k);
    AbsentTotalsZero(users[..k], c);
    forall d | d in updated ensures updated[d] == CommunityTotal(users[..k + 1], d) {
      PrefixTotal(users, k, d);
    }
  }

  /** A community nobody belongs to totals zero. */
  lemma {:induction false} AbsentTotalsZero(users: seq<User>, c: string)
    requires forall u :: u in users ==> u.community != c
    ensures CommunityTotal(users, c) == 0
    decreases |users|
  {
    if users != [] {
      var init := users[..|users| - 1];
      assert forall u :: u in init ==> u in users;
      AbsentTotalsZero(init, c);
    }
  }

  /** Adding one more user changes the rows of `names` by that user's points,
      in the row of the user's community if it is listed. */
  lemma {:induction false} TallyStep(names: seq<string>, users: seq<User>, u: User)
    requires NoDuplicates(names)
    ensures SumPoints(Tally(names, users + [u])) ==
            SumPoints(Tally(names, users)) + (if u.community in names then u.bloomPoints else 0)
    decreases |names|
  {
    if names != [] {
      assert (users + [u])[..|users|] == users;
      assert NoDuplicates(names[1..]);
      assert names == [names[0]] + names[1..];
      TallyStep(names[1..], users, u);
    }
  }

  lemma {:induction false} SumAppend(board: seq<Entry>, e: Entry)
    ensures SumPoints(board + [e]) == SumPoints(board) + e.points
    decreases |board|
  {
    if board != [] {
      assert (board + [e])[1..] == board[1..] + [e];
      SumAppend(board[1..], e);
    }
  }

  lemma TallyAppend(names: seq<string>, c: string, users: seq<User>)
    ensures Tally(names + [c], users) == Tally(names, users) + [Entry(c, CommunityTotal(users, c))]
  {
  }

  /** The per-community totals account for every user's points exactly once. */
  lemma {:induction false} StandingsSum(users: seq<User>)
    ensures SumPoints(Standings(users)) == TotalPoints(users)
    decreases |users|
  {
    if users != [] {
      var init := users[..|users| - 1];
      var last := users[|users| - 1];
      assert users == init + [last];
      var cs := Communities(init);
      StandingsSum(init);
      TallyStep(cs, init, last);
      if last.community !in cs {
        assert forall u :: u in init ==> u.community != last.community;
        AbsentTotalsZero(init, last.community);
        TallyAppend(cs, last.community, users);
        SumAppend(Tally(cs, users), Entry(last.community, CommunityTotal(users, last.community)));
      }
    }
  }

  /** Sorting keeps rows with distinct communities distinct. */
  lemma {:induction false} SortKeepsDistinct(s: seq<Entry>)
    requires DistinctCommunities(s)
    ensures DistinctCommunities(SortDesc(s))
    decreases |s|
  {
    if s != [] {
      assert DistinctCommunities(s[1..]);
      SortKeepsDistinct(s[1..]);
      var sorted := SortDesc(s[1..]);
      forall x | x in sorted ensures x.community != s[0].community {
        assert x in multiset(s[1..]);
        var j :| 0 <= j < |s[1..]| && s[1..][j] == x;
        assert s[j + 1] == x;
      }
      InsertKeepsDistinct(s[0], sorted);
    }
  }

  lemma {:induction false} InsertKeepsDistinct(e: Entry, board: seq<Entry>)
    requires SortedDesc(board) && DistinctCommunities(board)
    requires forall x :: x in board ==> x.community != e.community
    ensures DistinctCommunities(Insert(e, board))
    decreases |board|
  {
    if board == [] || board[0].points <= e.points {
      DistinctCons(e, board);
    } else {
      var rest := board[1..];
      assert DistinctCommunities(rest);
      InsertKeepsDistinct(e, rest);
      var r := Insert(e, rest);
      forall x | x in r ensures x.community != board[0].community {
        assert x in multiset(r);
        if x != e {
          var j :| 0 <= j < |rest| && rest[j] == x;
          assert board[j + 1] == x;
        }
      }
      DistinctCons(board[0], r);
    }
  }

  /** A row of a community not yet on the board can go in front. */
  lemma DistinctCons(x: Entry, board: seq<Entry>)
    requires DistinctCommunities(board)
    requires forall y :: y in board ==> y.community != x.community
    ensures DistinctCommunities([x] + board)
  {
    var r := [x] + board;
    forall i, j | 0 <= i < j < |r| ensures r[i].community != r[j].community {
      if i == 0 {
        assert r[j] in board;
      }
    }
  }

  /** The sorted rows are exactly the standings' rows. */
  lemma SameRows(users: seq<User>, board: seq<Entry>)
    requires multiset(board) == multiset(Standings(users))
    ensures forall e :: e in board <==> e in Standings(users)
  {
    forall e | e in board ensures e in Standings(users) {
      assert e in multiset(board);
    }
    forall e | e in Standings(users) ensures e in board {
      assert e in multiset(Standings(users));
    }
  }

  /** The standings name every community some user belongs to, and no other. */
  lemma StandingsCommunities(users: seq<User>)
    ensures (set e | e in Standings(users) :: e.community) == (set u | u in users :: u.community)
  {
    var rows := Standings(users);
    var cs := Communities(users);
    forall u | u in users ensures u.community in (set e | e in rows :: e.community) {
      assert u.community in cs;
      var i :| 0 <= i < |cs| && cs[i] == u.community;
      assert rows[i] in rows;
    }
    forall e | e in rows ensures e.community in (set u | u in users :: u.community) {
      var i :| 0 <= i < |rows| && rows[i] == e;
      assert cs[i] in cs;
      var u :| u in users && u.community == cs[i];
    }
  }

  /** Everything IsRanking states, for the sorted standings. */
  lemma RankingFacts(users: seq<User>, board: seq<Entry>)
    requires board == SortDesc(Standings(users))
    ensures IsRanking(users, board)
  {
    var rows := Standings(users);
    StandingsDistinct(users);
    SortKeepsDistinct(rows);
    SortKeepsSum(rows);
    StandingsSum(users);
    SameRows(users, board);
    RowsAreTotals(users, board);
    StandingsCommunities(users);
    SameCommunities(board, rows);
  }

  /** The standings have one row per community. */
  lemma StandingsDistinct(users: seq<User>)
    ensures DistinctCommunities(Standings(users))
  {
    var cs := Communities(users);
    var rows := Standings(users);
    forall i, j | 0 <= i < j < |rows| ensures rows[i].community != rows[j].community {
      assert rows[i].community == cs[i] && rows[j].community == cs[j];
    }
  }

  /** Every row of the sorted board carries its community's total. */
  lemma RowsAreTotals(users: seq<User>, board: seq<Entry>)
    requires forall e :: e in board <==> e in Standings(users)
    ensures forall e :: e in board ==> e.points == CommunityTotal(users, e.community)
  {
    var rows := Standings(users);
    forall e | e in board ensures e.points == CommunityTotal(users, e.community) {
      var i :| 0 <= i < |rows| && rows[i] == e;
    }
  }

  /** Boards with the same rows name the same communities. */
  lemma SameCommunities(board: seq<Entry>, rows: seq<Entry>)
    requires forall e :: e in board <==> e in rows
    ensures (set e | e in board :: e.community) == (set e | e in rows :: e.community)
  {
  }
}
