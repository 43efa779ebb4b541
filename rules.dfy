/**
 * The reveal-and-match rules of a game session (`handle_pick`) as a function on the part of
 * the session a pick reads and writes, with the invariants every pick preserves.
 */
module Rules {
  import opened Common
  import opened GridGen

  /** Points for a found pair (`points = 10`). */
  const MATCH_POINTS: nat := 10

  /** A player's per-session counters. */
  datatype PlayerStats = PlayerStats(pairsFound: nat, score: nat)

  /** One item of the session's `players` dict: a user id and that user's counters. */
  datatype Entry = Entry(uid: UserId, stats: PlayerStats)

  /**
   * The session's `players` dict, in insertion order (the order `finalize_game` walks it).
   * A new user is added at the end; ids are unique.
   */
  type Players = seq<Entry>

  /** The session fields a pick reads and writes. */
  datatype Board = Board(
    grid: seq<Tile>,
    revealed: seq<int>,
    score: nat,
    pairsFound: nat,
    players: Players)

  /** How a pick ended, one case per exit of `handle_pick`. */
  datatype Outcome =
    | Ignored       // out of range, already matched or already revealed: nothing written
    | Revealed      // appended to `revealed`, no second tile yet
    | Match         // two equal emojis: "Match! +10 points"
    | FillerMatch   // different emojis, one of them the filler: "Filler matched (no points)"
    | Mismatch      // "Not a match."
  {
    /** The second tile of a pair was picked and the pair was judged. */
    predicate Resolved() { Match? || FillerMatch? || Mismatch? }
  }

  datatype Step = Step(board: Board, outcome: Outcome)

  const NO_STATS: PlayerStats := PlayerStats(0, 0)

  /** The per-player credit of one found pair. */
  const PAIR_CREDIT: PlayerStats := PlayerStats(1, MATCH_POINTS)

  function Plus(a: PlayerStats, b: PlayerStats): PlayerStats
  {
    PlayerStats(a.pairsFound + b.pairsFound, a.score + b.score)
  }

  predicate UniqueIds(players: Players)
  {
    forall i, j :: 0 <= i < j < |players| ==> players[i].uid != players[j].uid
  }

  /** The position of `uid`'s entry, or -1 when the user has none. */
  function IndexOf(players: Players, uid: UserId): (i: int)
    ensures -1 <= i < |players|
    ensures i >= 0 ==> players[i].uid == uid && forall j :: 0 <= j < i ==> players[j].uid != uid
    ensures i == -1 ==> forall j :: 0 <= j < |players| ==> players[j].uid != uid
  {
    if players == [] then -1
    else if players[0].uid == uid then 0
    else
      var i := IndexOf(players[1..], uid);
      if i == -1 then -1 else i + 1
  }

  /** A user's counters, zero for a user without an entry (`$inc` on a missing path starts from 0). */
  function StatsOf(players: Players, uid: UserId): PlayerStats
  {
    var i := IndexOf(players, uid);
    if i >= 0 then players[i].stats else NO_STATS
  }

  /**
   * `$inc` of `players.<uid>.pairs_found` and `players.<uid>.score` by `delta`: the entry is
   * updated in place, or appended when the user has none yet.
   */
  function Credit(players: Players, uid: UserId, delta: PlayerStats): (r: Players)
    ensures |r| == |players| + (if IndexOf(players, uid) >= 0 then 0 else 1)
    ensures IndexOf(players, uid) < 0 ==> r[|players|] == Entry(uid, delta)
    ensures forall j :: 0 <= j < |players| ==> r[j].uid == players[j].uid
  {
    var i := IndexOf(players, uid);
    if i >= 0 then players[i := Entry(uid, Plus(players[i].stats, delta))]
    else players + [Entry(uid, delta)]
  }

  /** All players' counters added up. */
  function Totals(players: Players): PlayerStats
  {
    if players == [] then NO_STATS
    else Plus(players[0].stats, Totals(players[1..]))
  }

  /** The positions a pick may safely look at: a grid of `total` cells, revealed positions inside it. */
  predicate WellFormed(b: Board, total: int)
  {
    |b.grid| == total && forall j :: 0 <= j < |b.revealed| ==> 0 <= b.revealed[j] < |b.grid|
  }

  /**
   * What holds of a session between picks: at most one selected tile (listed in `revealed`), and it is unmatched;
   * the score is ten points per pair; and the players' entries add up to the session's
   * counters.
   */
  ghost predicate Inv(b: Board, total: int)
  {
    && WellFormed(b, total)
    && |b.revealed| <= 1
    && (forall j :: 0 <= j < |b.revealed| ==> !b.grid[b.revealed[j]].matched)
    && b.score == MATCH_POINTS * b.pairsFound
    && UniqueIds(b.players)
    && Totals(b.players) == PlayerStats(b.pairsFound, b.score)
  }

  /**
   * A new session's board: the dealt grid, nothing revealed, no points, the creator seeded
   * at zero. It satisfies the invariant.
   */
  function InitialBoard(grid: seq<Tile>, owner: UserId): (r: Board)
    ensures r.grid == grid && Inv(r, |grid|)
  {
    TotalsOfOne(Entry(owner, NO_STATS));
    Board(grid, [], 0, 0, [Entry(owner, NO_STATS)])
  }

  /** Judging the two selected tiles `i1` (picked first) and `i2`, picked by `uid`. */
  function Resolve(b: Board, i1: int, i2: int, filler: Option<Emoji>, uid: UserId): (st: Step)
    requires 0 <= i1 < |b.grid| && 0 <= i2 < |b.grid|
    ensures st.outcome.Resolved() && st.board.revealed == []
    ensures |st.board.grid| == |b.grid|
    ensures st.outcome == Match <==> b.grid[i1].emoji == b.grid[i2].emoji
  {
    var e1, e2 := b.grid[i1].emoji, b.grid[i2].emoji;
    if e1 == e2 then
      var grid := b.grid[i1 := b.grid[i1].(matched := true)];
      var grid := grid[i2 := grid[i2].(matched := true)];
      var players := Credit(b.players, uid, PAIR_CREDIT);
      Step(Board(grid, [], b.score + MATCH_POINTS, b.pairsFound + 1, players), Match)
    else if filler.Some? && (e1 == filler.value || e2 == filler.value) then
      var grid := if e1 == filler.value then b.grid[i1 := b.grid[i1].(matched := true)] else b.grid;
      var grid := if e2 == filler.value then grid[i2 := grid[i2].(matched := true)] else grid;
      Step(b.(grid := grid, revealed := []), FillerMatch)
    else
      Step(b.(revealed := []), Mismatch)
  }

  /** `handle_pick`: user `uid` taps cell `index` of a grid of `total` cells. */
  function Pick(b: Board, total: int, filler: Option<Emoji>, uid: UserId, index: int): (st: Step)
    requires WellFormed(b, total)
    ensures WellFormed(st.board, total)
    ensures st.outcome == Revealed ==> st.board.revealed == b.revealed + [index]
  {
    if index < 0 || index >= total || b.grid[index].matched || index in b.revealed then
      Step(b, Ignored)
    else
      var revealed := b.revealed + [index];
      if |revealed| != 2 then Step(b.(revealed := revealed), Revealed)
      else Resolve(b, revealed[0], revealed[1], filler, uid)
  }

  /** Overwriting one entry changes the totals by exactly the difference. */
  lemma {:induction false} TotalsAfterSet(players: Players, i: nat, e: Entry)
    requires i < |players|
    ensures Plus(Totals(players[i := e]), players[i].stats) == Plus(Totals(players), e.stats)
    decreases |players|
  {
    var updated := players[i := e];
    if i == 0 {
      assert updated[1..] == players[1..];
    } else {
      assert updated[1..] == players[1..][i - 1 := e];
      TotalsAfterSet(players[1..], i - 1, e);
    }
  }

  /** Appending an entry adds its counters to the totals. */
  lemma {:induction false} TotalsAfterAppend(players: Players, e: Entry)
    ensures Totals(players + [e]) == Plus(Totals(players), e.stats)
  {
    if players != [] {
      assert (players + [e])[1..] == players[1..] + [e];
      TotalsAfterAppend(players[1..], e);
    }
  }

  /** Crediting a user adds exactly the credit to the totals, whether the user had an entry or not. */
  lemma CreditAddsToTotals(players: Players, uid: UserId, delta: PlayerStats)
    ensures Totals(Credit(players, uid, delta)) == Plus(Totals(players), delta)
  {
    var i := IndexOf(players, uid);
    if i >= 0 {
      TotalsAfterSet(players, i, Entry(uid, Plus(players[i].stats, delta)));
    } else {
      TotalsAfterAppend(players, Entry(uid, delta));
    }
  }

  /** Crediting `uid` changes `uid`'s counters by the credit and nobody else's. */
  lemma CreditChangesOnlyUser(players: Players, uid: UserId, delta: PlayerStats)
    requires UniqueIds(players)
    ensures UniqueIds(Credit(players, uid, delta))
    ensures StatsOf(Credit(players, uid, delta), uid) == Plus(StatsOf(players, uid), delta)
    ensures forall u :: u != uid ==> StatsOf(Credit(players, uid, delta), u) == StatsOf(players, u)
  {
    var credited := Credit(players, uid, delta);
    var i := IndexOf(players, uid);
    if i >= 0 {
      assert credited[i].uid == uid;
      assert forall j :: 0 <= j < i ==> credited[j] == players[j];
      assert IndexOf(credited, uid) == i;
    } else {
      assert credited[|players|].uid == uid;
      assert forall j :: 0 <= j < |players| ==> credited[j] == players[j];
      assert IndexOf(credited, uid) == |players|;
    }
    forall u | u != uid
      ensures StatsOf(credited, u) == StatsOf(players, u)
    {
      var k := IndexOf(players, u);
      if k >= 0 {
        assert credited[k] == players[k];
        assert IndexOf(credited, u) == k;
      } else {
        assert IndexOf(credited, u) == -1;
      }
    }
  }

  lemma TotalsOfOne(e: Entry)
    ensures Totals([e]) == e.stats
  {
  }

  /** Crediting a found pair keeps the players' entries unique and in step with the session's counters. */
  lemma PairCreditKeepsTotals(players: Players, uid: UserId, pairsFound: nat, score: nat)
    requires UniqueIds(players) && Totals(players) == PlayerStats(pairsFound, score)
    ensures UniqueIds(Credit(players, uid, PAIR_CREDIT))
    ensures Totals(Credit(players, uid, PAIR_CREDIT)) == PlayerStats(pairsFound + 1, score + MATCH_POINTS)
  {
    CreditAddsToTotals(players, uid, PAIR_CREDIT);
    CreditKeepsUnique(players, uid, PAIR_CREDIT);
  }

  /** Any credit keeps one entry per user. */
  lemma CreditKeepsUnique(players: Players, uid: UserId, delta: PlayerStats)
    requires UniqueIds(players)
    ensures UniqueIds(Credit(players, uid, delta))
  {
    CreditChangesOnlyUser(players, uid, delta);
  }

  /** Judging a pair leaves nothing selected and keeps the score and the players' entries in step. */
  lemma ResolveKeepsInv(b: Board, i1: int, i2: int, filler: Option<Emoji>, uid: UserId)
    requires 0 <= i1 < |b.grid| && 0 <= i2 < |b.grid|
    requires b.score == MATCH_POINTS * b.pairsFound
    requires UniqueIds(b.players) && Totals(b.players) == PlayerStats(b.pairsFound, b.score)
    ensures Inv(Resolve(b, i1, i2, filler, uid).board, |b.grid|)
  {
    if b.grid[i1].emoji == b.grid[i2].emoji {
      PairCreditKeepsTotals(b.players, uid, b.pairsFound, b.score);
    }
  }

  /** Every pick preserves the invariant. */
  lemma PickKeepsInv(b: Board, total: int, filler: Option<Emoji>, uid: UserId, index: int)
    requires Inv(b, total)
    ensures Inv(Pick(b, total, filler, uid, index).board, total)
  {
    if 0 <= index < total && !b.grid[index].matched && index !in b.revealed && |b.revealed| == 1 {
      assert (b.revealed + [index])[0] == b.revealed[0];
      ResolveKeepsInv(b, b.revealed[0], index, filler, uid);
    }
  }

  /**
   * A pick changes nothing at all exactly when the cell is outside the grid, already
   * matched or already selected.
   */
  lemma PickIgnored(b: Board, total: int, filler: Option<Emoji>, uid: UserId, index: int)
    requires WellFormed(b, total)
    ensures var st := Pick(b, total, filler, uid, index);
      && (st.outcome == Ignored <==> index < 0 || index >= total || b.grid[index].matched || index in b.revealed)
      && (st.outcome == Ignored ==> st.board == b)
      && (st.board == b ==> st.outcome == Ignored)
  {
  }

  /**
   * Between picks at most one tile is selected; the first pick of a pair only selects its
   * tile, and the second always judges the pair and empties `revealed`.
   */
  lemma PickRevealCycle(b: Board, total: int, filler: Option<Emoji>, uid: UserId, index: int)
    requires Inv(b, total)
    ensures var st := Pick(b, total, filler, uid, index);
      && |st.board.revealed| <= 1
      && (st.outcome != Ignored && b.revealed == [] ==>
            st.outcome == Revealed && st.board == b.(revealed := [index]))
      && (st.outcome != Ignored && |b.revealed| == 1 ==>
            st.outcome.Resolved() && st.board.revealed == [])
  {
  }

  /**
   * The three ways a second pick is judged. Equal emojis: both tiles matched, ten points
   * and one pair to the session and to the picking player, nobody else's entry touched.
   * Different emojis of which one is the filler: only the filler tile matched, no points.
   * Otherwise: nothing but `revealed` changes.
   */
  lemma PickJudgesPair(b: Board, total: int, filler: Option<Emoji>, uid: UserId, index: int)
    requires Inv(b, total) && |b.revealed| == 1
    requires 0 <= index < total && !b.grid[index].matched && index !in b.revealed
    ensures var st := Pick(b, total, filler, uid, index);
      var i1 := b.revealed[0];
      var e1, e2 := b.grid[i1].emoji, b.grid[index].emoji;
      && i1 != index
      && (st.outcome == Match <==> e1 == e2)
      && (st.outcome == FillerMatch <==> e1 != e2 && filler.Some? && (e1 == filler.value || e2 == filler.value))
      && (st.outcome == Match ==>
            && st.board.grid == b.grid[i1 := Tile(e1, true)][index := Tile(e2, true)]
            && st.board.score == b.score + MATCH_POINTS
            && st.board.pairsFound == b.pairsFound + 1
            && StatsOf(st.board.players, uid) == Plus(StatsOf(b.players, uid), PAIR_CREDIT)
            && (forall u :: u != uid ==> StatsOf(st.board.players, u) == StatsOf(b.players, u)))
      && (st.outcome == FillerMatch ==>
            && st.board == b.(grid := st.board.grid, revealed := [])
            && |st.board.grid| == |b.grid|
            && (forall k :: 0 <= k < |b.grid| ==>
                  st.board.grid[k] == if (k == i1 || k == index) && b.grid[k].emoji == filler.value
                                      then b.grid[k].(matched := true) else b.grid[k]))
      && (st.outcome == Mismatch ==> st.board == b.(revealed := []))
  {
    CreditChangesOnlyUser(b.players, uid, PAIR_CREDIT);
  }

  /** Tiles keep their emojis, and a matched tile never turns back. */
  lemma PickOnlyMatches(b: Board, total: int, filler: Option<Emoji>, uid: UserId, index: int)
    requires WellFormed(b, total)
    ensures var g := Pick(b, total, filler, uid, index).board.grid;
      && |g| == |b.grid|
      && (forall k :: 0 <= k < |g| ==> g[k].emoji == b.grid[k].emoji && (b.grid[k].matched ==> g[k].matched))
    ensures Pick(b, total, filler, uid, index).board.score >= b.score
    ensures Pick(b, total, filler, uid, index).board.pairsFound >= b.pairsFound
  {
  }

  /**
   * With at most one unmatched tile left, no pick changes the grid: a pair needs two
   * distinct unmatched tiles. A lone filler left after every pair was found therefore
   * stays unmatched for good.
   */
  lemma LoneTileStaysUnmatched(b: Board, total: int, filler: Option<Emoji>, uid: UserId, index: int)
    requires Inv(b, total)
    requires forall i, j :: 0 <= i < j < |b.grid| ==> b.grid[i].matched || b.grid[j].matched
    ensures Pick(b, total, filler, uid, index).board.grid == b.grid
  {
  }
}
