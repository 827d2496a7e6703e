/**
 * The leaderboard routes (routes/leaderboard.js): the all-time board by xp, the weekly board
 * by completions in the last seven days, rank assignment, the caller's own rank, and the
 * overall statistics.
 */
module LeaderboardRoutes {
  import opened Wrappers
  import opened Basics
  import opened JsBuiltins
  import opened JsArrays
  import opened Sorting
  import opened HabitModel
  import opened UserModel
  import opened Store
  import opened HabitRoutes

  const ALL_TIME: string := "all-time"
  const WEEKLY: string := "weekly"
  const DEFAULT_BOARD_LIMIT: int := 10

  /** The fields the board shows of a user; `weeklyCompletions` only on the weekly board. */
  datatype BoardEntry = BoardEntry(
    id: ObjectId,
    username: string,
    xp: int,
    level: int,
    totalHabitsCompleted: nat,
    currentBadge: Option<string>,
    weeklyCompletions: nat)

  datatype RankedEntry = RankedEntry(entry: BoardEntry, rank: nat, isCurrentUser: bool)

  function EntryOf(u: User, weeklyCompletions: nat): (e: BoardEntry)
    ensures e.id == u.id && e.xp == u.xp && e.weeklyCompletions == weeklyCompletions
  {
    BoardEntry(u.id, u.username, u.xp, u.level, u.totalHabitsCompleted, u.currentBadge, weeklyCompletions)
  }

  function EntryXp(e: BoardEntry): int {
    e.xp
  }

  function EntryWeekly(e: BoardEntry): int {
    e.weeklyCompletions
  }

  function Abs(n: int): nat {
    if n < 0 then -n else n
  }

  /** Mongo's `.limit(n)`: no limit for 0, at most `|n|` documents otherwise. */
  function MongoLimit<T>(s: seq<T>, n: int): (r: seq<T>)
    ensures |r| <= |s| && r == s[..|r|]
    ensures n == 0 ==> r == s
    ensures n != 0 ==> |r| == Min(|s|, Abs(n))
  {
    if n == 0 || |s| <= Abs(n) then s else s[..Abs(n)]
  }

  // ----- all-time -----

  /** `User.find({}).sort({xp: -1}).limit(limit)`, each user shown with no weekly count. */
  function AllTimeBoard(users: seq<User>, limit: int): (board: seq<BoardEntry>)
    ensures SortedDesc(board, EntryXp)
    ensures limit != 0 ==> |board| <= Abs(limit)
    ensures |board| <= |users| && board == SortDesc(AllTimeEntries(users), EntryXp)[..|board|]
  {
    var sorted := SortDesc(AllTimeEntries(users), EntryXp);
    SortDescSorted(AllTimeEntries(users), EntryXp);
    MongoLimit(sorted, limit)
  }

  function AllTimeEntries(users: seq<User>): (entries: seq<BoardEntry>)
    ensures |entries| == |users|
    ensures forall i :: 0 <= i < |users| ==> entries[i] == EntryOf(users[i], 0)
  {
    seq(|users|, i requires 0 <= i < |users| => EntryOf(users[i], 0))
  }

  // ----- weekly -----

  function OnOrAfter(weekAgo: Day): HistoryEntry -> bool {
    (e: HistoryEntry) => e.date >= weekAgo
  }

  /** The completions dated on or after `weekAgo`, summed over the given habits. */
  function WeeklyCount(hs: seq<Habit>, weekAgo: Day): nat {
    if hs == [] then 0
    else WeeklyCount(hs[..|hs| - 1], weekAgo) + |Filter(hs[|hs| - 1].completionHistory, OnOrAfter(weekAgo))|
  }

  /** An earlier cut-off never counts fewer completions. */
  lemma {:induction false} WeeklyCountMonotone(hs: seq<Habit>, w1: Day, w2: Day)
    requires w1 <= w2
    ensures WeeklyCount(hs, w2) <= WeeklyCount(hs, w1)
  {
    if hs != [] {
      WeeklyCountMonotone(hs[..|hs| - 1], w1, w2);
      FilterWeaker(hs[|hs| - 1].completionHistory, OnOrAfter(w2), OnOrAfter(w1));
    }
  }

  /** The weekly count never exceeds the number of history entries of the habits counted. */
  lemma {:induction false} WeeklyCountAtMostHistory(hs: seq<Habit>, weekAgo: Day)
    ensures WeeklyCount(hs, weekAgo) <= TotalHistory(hs)
  {
    if hs != [] {
      WeeklyCountAtMostHistory(hs[..|hs| - 1], weekAgo);
    }
  }

  function TotalHistory(hs: seq<Habit>): nat {
    if hs == [] then 0 else TotalHistory(hs[..|hs| - 1]) + |hs[|hs| - 1].completionHistory|
  }

  /** The `forEach` that adds up one user's completions over their active habits. */
  method WeeklyCompletions(habits: seq<Habit>, userId: ObjectId, weekAgo: Day) returns (count: nat)
    ensures count == WeeklyCount(Filter(habits, IsActiveOf(userId)), weekAgo)
  {
    var hs := Filter(habits, IsActiveOf(userId));
    count := 0;
    var i := 0;
    while i < |hs|
      invariant 0 <= i <= |hs|
      invariant count == WeeklyCount(hs[..i], weekAgo)
    {
      assert hs[..i + 1][..i] == hs[..i];
      count := count + |Filter(hs[i].completionHistory, OnOrAfter(weekAgo))|;
      i := i + 1;
    }
    assert hs[..i] == hs;
  }

  /** A user's board entry carrying their completions since `weekAgo` over their active habits. */
  function WeeklyEntry(u: User, habits: seq<Habit>, weekAgo: Day): (e: BoardEntry)
    ensures e.id == u.id && e.xp == u.xp
  {
    EntryOf(u, WeeklyCount(Filter(habits, IsActiveOf(u.id)), weekAgo))
  }

  /** Every user with their completions since `weekAgo`, in the users' natural order. */
  function WeeklyEntries(users: seq<User>, habits: seq<Habit>, weekAgo: Day): (entries: seq<BoardEntry>)
    ensures |entries| == |users|
  {
    if users == [] then []
    else WeeklyEntries(users[..|users| - 1], habits, weekAgo) + [WeeklyEntry(users[|users| - 1], habits, weekAgo)]
  }

  /** The entry at each position is the weekly entry of the user at that position. */
  lemma {:induction false} WeeklyEntriesAt(users: seq<User>, habits: seq<Habit>, weekAgo: Day, i: nat)
    requires i < |users|
    ensures WeeklyEntries(users, habits, weekAgo)[i] == WeeklyEntry(users[i], habits, weekAgo)
  {
    if i < |users| - 1 {
      WeeklyEntriesAt(users[..|users| - 1], habits, weekAgo, i);
    }
  }

  /** The `map` over all users that attaches each one's weekly count. */
  method CollectWeeklyEntries(users: seq<User>, habits: seq<Habit>, weekAgo: Day) returns (entries: seq<BoardEntry>)
    ensures entries == WeeklyEntries(users, habits, weekAgo)
  {
    entries := [];
    var i := 0;
    while i < |users|
      invariant 0 <= i <= |users|
      invariant entries == WeeklyEntries(users[..i], habits, weekAgo)
    {
      var count := WeeklyCompletions(habits, users[i].id, weekAgo);
      assert users[..i + 1][..i] == users[..i];
      entries := entries + [EntryOf(users[i], count)];
      i := i + 1;
    }
    assert users[..i] == users;
  }

  /** The weekly board: every user's count, sorted by it (stable, descending), then `slice(0, limit)`. */
  method WeeklyBoard(db: Database, today: Day, limit: int) returns (board: seq<BoardEntry>)
    ensures board == Slice(SortDesc(WeeklyEntries(db.users, db.habits, today - 7), EntryWeekly), 0, limit)
    ensures SortedDesc(board, EntryWeekly)
    ensures limit >= 0 ==> |board| <= limit
  {
    var entries := CollectWeeklyEntries(db.users, db.habits, today - 7);
    var sorted := SortEntries(entries);
    SortDescSorted(entries, EntryWeekly);
    SliceOfSorted(sorted, 0, limit, EntryWeekly);
    board := Slice(sorted, 0, limit);
  }

  /** `usersWithWeeklyStats.sort((a, b) => b.weeklyCompletions - a.weeklyCompletions)`. */
  method SortEntries(entries: seq<BoardEntry>) returns (sorted: seq<BoardEntry>)
    ensures sorted == SortDesc(entries, EntryWeekly)
  {
    var a := new BoardEntry[|entries|](i requires 0 <= i < |entries| => entries[i]);
    assert a[..] == entries;
    SortInPlace(a, EntryWeekly);
    sorted := a[..];
  }

  // ----- ranks -----

  /** `leaderboard.map((user, index) => ({...user, rank: index + 1, isCurrentUser}))`. */
  function Ranked(board: seq<BoardEntry>, currentUserId: ObjectId): (r: seq<RankedEntry>)
    ensures |r| == |board|
    ensures forall i :: 0 <= i < |r| ==>
      && r[i].entry == board[i] && r[i].rank == i + 1
      && (r[i].isCurrentUser <==> board[i].id == currentUserId)
  {
    seq(|board|, i requires 0 <= i < |board| => RankedEntry(board[i], i + 1, board[i].id == currentUserId))
  }

  /** On a board sorted by `key`, a better rank never has a smaller key. */
  lemma RanksFollowOrder(board: seq<BoardEntry>, currentUserId: ObjectId, key: BoardEntry -> int, i: nat, j: nat)
    requires SortedDesc(board, key)
    requires i < |board| && j < |board|
    requires Ranked(board, currentUserId)[i].rank < Ranked(board, currentUserId)[j].rank
    ensures key(board[i]) >= key(board[j])
  {
  }

  function XpAbove(xp: int): User -> bool {
    (u: User) => u.xp > xp
  }

  function XpIs(xp: int): User -> bool {
    (u: User) => u.xp == xp
  }

  function EntryXpAbove(xp: int): BoardEntry -> bool {
    (e: BoardEntry) => e.xp > xp
  }

  function EntryXpIs(xp: int): BoardEntry -> bool {
    (e: BoardEntry) => e.xp == xp
  }

  /** `countDocuments({xp: {$gt: xp}}) + 1`: one more than the number of users with more xp. */
  function RankByXp(users: seq<User>, xp: int): (rank: nat)
    ensures 1 <= rank <= |users| + 1
  {
    |Filter(users, XpAbove(xp))| + 1
  }

  function IsCurrent(r: RankedEntry): bool {
    r.isCurrentUser
  }

  datatype LeaderboardResponse = LeaderboardResponse(
    leaderboard: seq<RankedEntry>,
    currentUser: Option<RankedEntry>,
    timeframe: string,
    limit: int)

  /**
   * GET /api/leaderboard. The caller's entry is the one on the board, if any; otherwise, on
   * the all-time board only, a synthetic entry ranked one below the users with more xp. Any
   * timeframe other than all-time and weekly fails (None). Nothing is stored.
   */
  method GetLeaderboard(db: Database, caller: User, timeframeQuery: Option<string>,
                        limitQuery: Option<int>, today: Day) returns (response: Option<LeaderboardResponse>)
    ensures var timeframe := timeframeQuery.GetOr(ALL_TIME);
      var limit := limitQuery.GetOr(DEFAULT_BOARD_LIMIT);
      && (response.None? <==> timeframe != ALL_TIME && timeframe != WEEKLY)
      && (response.Some? ==>
            && response.value.timeframe == timeframe && response.value.limit == limit
            && response.value.leaderboard == Ranked(
                 if timeframe == ALL_TIME then AllTimeBoard(db.users, limit)
                 else Slice(SortDesc(WeeklyEntries(db.users, db.habits, today - 7), EntryWeekly), 0, limit),
                 caller.id)
            && response.value.currentUser ==
                 if Find(response.value.leaderboard, IsCurrent).Some? then Find(response.value.leaderboard, IsCurrent)
                 else if timeframe == ALL_TIME then Some(RankedEntry(EntryOf(caller, 0), RankByXp(db.users, caller.xp), true))
                 else None)
  {
    var timeframe := timeframeQuery.GetOr(ALL_TIME);
    var limit := limitQuery.GetOr(DEFAULT_BOARD_LIMIT);
    var board: seq<BoardEntry>;
    if timeframe == ALL_TIME {
      board := AllTimeBoard(db.users, limit);
    } else if timeframe == WEEKLY {
      board := WeeklyBoard(db, today, limit);
    } else {
      return None;
    }
    var ranked := Ranked(board, caller.id);
    var inList := Find(ranked, IsCurrent);
    var currentUser := inList;
    if inList.None? && timeframe == ALL_TIME {
      currentUser := Some(RankedEntry(EntryOf(caller, 0), RankByXp(db.users, caller.xp), true));
    }
    return Some(LeaderboardResponse(ranked, currentUser, timeframe, limit));
  }

  // ----- the xp rank and the all-time board agree -----

  lemma {:induction false} EntryCountsMatchUsers(users: seq<User>, xp: int)
    ensures |Filter(AllTimeEntries(users), EntryXpAbove(xp))| == |Filter(users, XpAbove(xp))|
    ensures |Filter(AllTimeEntries(users), EntryXpIs(xp))| == |Filter(users, XpIs(xp))|
  {
    if users != [] {
      var init, last := users[..|users| - 1], users[|users| - 1];
      var entries := AllTimeEntries(users);
      EntryCountsMatchUsers(init, xp);
      AllTimeEntriesPrefix(users);
      assert entries[|entries| - 1].xp == last.xp;
    }
  }

  /** The entries of all but the last user are the entries without the last one. */
  lemma AllTimeEntriesPrefix(users: seq<User>)
    requires users != []
    ensures AllTimeEntries(users)[..|users| - 1] == AllTimeEntries(users[..|users| - 1])
  {
    var init := users[..|users| - 1];
    assert forall i :: 0 <= i < |init| ==> init[i] == users[i];
  }

  /** Two positions that satisfy `p` make a count of at least two. */
  lemma FilterTwo<T>(s: seq<T>, p: T -> bool, j: nat, i: nat)
    requires j < i < |s| && p(s[j]) && p(s[i])
    ensures |Filter(s, p)| >= 2
  {
    FilterAppend(s[..i], s[i..], p);
    SplitAt(s, i);
    FilterMembers(s[..i], p, s[j]);
    FilterMembers(s[i..], p, s[i]);
    assert s[..i][j] == s[j] && s[i..][0] == s[i];
  }

  /**
   * On a board sorted by xp, the entries with more xp than the one at position `i` all come
   * before it; when no other entry has its xp, they are exactly the ones before it.
   */
  lemma SortedXpRank(sorted: seq<BoardEntry>, xp: int, i: nat)
    requires SortedDesc(sorted, EntryXp) && i < |sorted| && sorted[i].xp == xp
    ensures |Filter(sorted, EntryXpAbove(xp))| <= i
    ensures |Filter(sorted, EntryXpIs(xp))| == 1 ==> |Filter(sorted, EntryXpAbove(xp))| == i
  {
    var before, after := sorted[..i], sorted[i..];
    assert sorted == before + after;
    FilterAppend(before, after, EntryXpAbove(xp));
    forall k | 0 <= k < |after|
      ensures !EntryXpAbove(xp)(after[k])
    {
      assert after[k] == sorted[i + k];
      assert EntryXp(sorted[i]) >= EntryXp(sorted[i + k]);
    }
    FilterNone(after, EntryXpAbove(xp));
    if |Filter(sorted, EntryXpIs(xp))| == 1 {
      forall k | 0 <= k < |before|
        ensures EntryXpAbove(xp)(before[k])
      {
        assert before[k] == sorted[k];
        assert EntryXp(sorted[k]) >= EntryXp(sorted[i]);
        if sorted[k].xp == xp {
          assert EntryXpIs(xp)(sorted[k]) && EntryXpIs(xp)(sorted[i]);
          FilterTwo(sorted, EntryXpIs(xp), k, i);
        }
      }
      FilterAll(before, EntryXpAbove(xp));
    }
  }

  /**
   * The rank the stats route reports for a user is never worse than the user's position on
   * the all-time board, and equals it when no other user has the same xp.
   */
  lemma XpRankMatchesBoard(users: seq<User>, limit: int, xp: int, i: nat)
    requires i < |AllTimeBoard(users, limit)| && AllTimeBoard(users, limit)[i].xp == xp
    ensures RankByXp(users, xp) <= i + 1
    ensures |Filter(users, XpIs(xp))| == 1 ==> RankByXp(users, xp) == i + 1
  {
    var entries := AllTimeEntries(users);
    var sorted := SortDesc(entries, EntryXp);
    SortDescSorted(entries, EntryXp);
    assert sorted[i] == AllTimeBoard(users, limit)[i];
    EntryCountsMatchUsers(users, xp);
    FilterCountPermutation(entries, sorted, EntryXpAbove(xp));
    FilterCountPermutation(entries, sorted, EntryXpIs(xp));
    SortedXpRank(sorted, xp, i);
  }

  // ----- GET /api/leaderboard/stats -----

  datatype BoardStats = BoardStats(
    totalUsers: nat,
    totalHabitsCompleted: nat,
    topUser: Option<User>,
    averageXp: int,
    currentUserRank: nat)

  function SumHabitsCompleted(users: seq<User>): nat {
    if users == [] then 0 else SumHabitsCompleted(users[..|users| - 1]) + users[|users| - 1].totalHabitsCompleted
  }

  function SumXp(users: seq<User>): int {
    if users == [] then 0 else SumXp(users[..|users| - 1]) + users[|users| - 1].xp
  }

  function UserXp(u: User): int {
    u.xp
  }

  /** `findOne({}).sort({xp: -1})`: a user with the most xp, none for an empty collection. */
  function TopUser(users: seq<User>): (top: Option<User>)
    ensures top.None? <==> users == []
    ensures top.Some? ==> top.value in users && forall k :: 0 <= k < |users| ==> users[k].xp <= top.value.xp
  {
    var sorted := SortDesc(users, UserXp);
    SortDescSorted(users, UserXp);
    if sorted == [] then None
    else
      TopIsMax(users, sorted);
      Some(sorted[0])
  }

  lemma TopIsMax(users: seq<User>, sorted: seq<User>)
    requires multiset(sorted) == multiset(users) && SortedDesc(sorted, UserXp) && sorted != []
    ensures sorted[0] in users
    ensures forall k :: 0 <= k < |users| ==> users[k].xp <= sorted[0].xp
  {
    assert sorted[0] in multiset(users);
    forall k | 0 <= k < |users| ensures users[k].xp <= sorted[0].xp {
      assert users[k] in multiset(sorted);
      var j :| 0 <= j < |sorted| && sorted[j] == users[k];
    }
  }

  /** `Math.round(sum / n)` on exact values: the nearest integer, halves rounded up. */
  function RoundedAverage(sum: int, n: nat): int
    requires n > 0
  {
    (2 * sum + n) / (2 * n)
  }

  lemma RoundedAverageBounds(sum: int, n: nat)
    requires n > 0
    ensures 2 * n * RoundedAverage(sum, n) - n <= 2 * sum < 2 * n * RoundedAverage(sum, n) + n
  {
    var q := (2 * sum + n) / (2 * n);
    var m := (2 * sum + n) % (2 * n);
    assert 2 * sum + n == (2 * n) * q + m && 0 <= m < 2 * n;
    assert 2 * n * RoundedAverage(sum, n) == (2 * n) * q;
  }

  /** The overall statistics: user count, completions, the top user, the rounded mean xp and the caller's rank. */
  function LeaderboardStats(users: seq<User>, caller: User): (s: BoardStats)
    ensures s.totalUsers == |users| && 1 <= s.currentUserRank <= |users| + 1
    ensures s.topUser.None? <==> users == []
    ensures s.topUser == TopUser(users)
    ensures s.topUser.Some? ==> s.topUser.value in users && forall k :: 0 <= k < |users| ==> users[k].xp <= s.topUser.value.xp
    ensures s.totalHabitsCompleted == SumHabitsCompleted(users)
    ensures s.currentUserRank == RankByXp(users, caller.xp) == |Filter(users, XpAbove(caller.xp))| + 1
    ensures users != [] ==>
      2 * |users| * s.averageXp - |users| <= 2 * SumXp(users) < 2 * |users| * s.averageXp + |users|
    ensures users == [] ==> s.averageXp == 0
  {
    var average := if users == [] then 0 else RoundedAverage(SumXp(users), |users|);
    if users != [] then
      RoundedAverageBounds(SumXp(users), |users|);
      BoardStats(|users|, SumHabitsCompleted(users), TopUser(users), average, RankByXp(users, caller.xp))
    else
      BoardStats(|users|, SumHabitsCompleted(users), TopUser(users), average, RankByXp(users, caller.xp))
  }
}
