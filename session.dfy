/**
 * A game session as the handlers drive it: created when a size button is pressed,
 * changed in place by every accepted tile press, rolled up into the users' and the chat's
 * statistics when its last tile is matched or when a player ends it.
 */
module Session {
  import opened Common
  import opened SizeLabel
  import opened GridGen
  import opened Rules
  import opened Store

  /** Every tile of the grid is matched (`all(c["matched"] for c in grid)`). */
  predicate AllMatched(grid: seq<Tile>)
    ensures AllMatched(grid) <==> forall t :: t in grid ==> t.matched
  {
    forall k :: 0 <= k < |grid| ==> grid[k].matched
  }

  /** A pick that finalizes the game: it judged a pair and left no tile unmatched. */
  predicate Completes(st: Step)
  {
    st.outcome.Resolved() && AllMatched(st.board.grid)
  }

  /** The `users` collection after a pick: the pair credit, then the roll-up when the pick completes the game. */
  function UsersAfterPick(users: Users, st: Step, uid: UserId): (r: Users)
    ensures r.Keys == users.Keys
  {
    var credited := if st.outcome == Match then CreditMatch(users, uid) else users;
    if Completes(st) then FinalizeUsers(credited, st.board.players) else credited
  }

  /** The `chats` collection after a pick: one more game for the chat when the pick completes the game. */
  function ChatsAfterPick(chats: Chats, st: Step, chatId: ChatId): (r: Chats)
    ensures r.Keys == if Completes(st) then chats.Keys + {chatId} else chats.Keys
    ensures forall c :: c in chats && c != chatId ==> r[c] == chats[c]
  {
    if Completes(st) then RecordGame(chats, chatId) else chats
  }

  /** No pick touches a cooldown: only the gate writes `cooldown_until`. */
  lemma UsersAfterPickKeepsCooldowns(users: Users, st: Step, uid: UserId)
    ensures forall u :: CooldownOf(UsersAfterPick(users, st, uid), u) == CooldownOf(users, u)
  {
    var credited := if st.outcome == Match then CreditMatch(users, uid) else users;
    FinalizeUsersKeepsCooldowns(credited, st.board.players);
  }

  /**
   * A pick that completes the game gives every player with a document one more game and a
   * best score equal to the larger of their old best and their session score; the picker's
   * pair credit comes first.
   */
  lemma CompletingPickRollsUp(users: Users, st: Step, uid: UserId, u: UserId)
    requires Completes(st) && UniqueIds(st.board.players)
    requires u in users && Plays(st.board.players, u)
    ensures u in UsersAfterPick(users, st, uid)
    ensures UsersAfterPick(users, st, uid)[u].gamesPlayed == users[u].gamesPlayed + 1
    ensures var s := StatsOf(st.board.players, u).score;
      UsersAfterPick(users, st, uid)[u].bestScore == if s > users[u].bestScore then s else users[u].bestScore
  {
    var credited := if st.outcome == Match then CreditMatch(users, uid) else users;
    FinalizeUsersEffect(credited, st.board.players);
  }

  /**
   * A found pair raises the picker's lifetime pairs by one and points by ten, whether or
   * not the pair also completes the game: the roll-up touches neither counter.
   */
  lemma MatchPickLifetime(users: Users, st: Step, uid: UserId)
    requires st.outcome == Match && uid in users && UniqueIds(st.board.players)
    ensures uid in UsersAfterPick(users, st, uid)
    ensures UsersAfterPick(users, st, uid)[uid].totalPoints == users[uid].totalPoints + MATCH_POINTS
    ensures UsersAfterPick(users, st, uid)[uid].pairsFound == users[uid].pairsFound + 1
  {
    FinalizeUsersEffect(CreditMatch(users, uid), st.board.players);
  }

  /** Matching the last two unmatched tiles finishes the game, with the pair's ten points. */
  lemma LastPairCompletes(b: Board, total: int, filler: Option<Emoji>, uid: UserId, index: int)
    requires Inv(b, total) && |b.revealed| == 1
    requires 0 <= index < total && index != b.revealed[0] && !b.grid[index].matched
    requires b.grid[index].emoji == b.grid[b.revealed[0]].emoji
    requires forall k :: 0 <= k < |b.grid| && k != index && k != b.revealed[0] ==> b.grid[k].matched
    ensures Completes(Pick(b, total, filler, uid, index))
    ensures Pick(b, total, filler, uid, index).outcome == Match
    ensures Pick(b, total, filler, uid, index).board.score == b.score + MATCH_POINTS
  {
  }

  /**
   * A game down to one unmatched tile never completes by picking: that tile can never be
   * paired, so the game ends only when a player ends it.
   */
  lemma LoneTileNeverCompletes(b: Board, total: int, filler: Option<Emoji>, uid: UserId, index: int, lone: int)
    requires Inv(b, total) && 0 <= lone < |b.grid| && !b.grid[lone].matched
    requires forall k :: 0 <= k < |b.grid| && k != lone ==> b.grid[k].matched
    ensures !Completes(Pick(b, total, filler, uid, index))
  {
    LoneTileStaysUnmatched(b, total, filler, uid, index);
  }

  /** One document of the `games` collection, updated in place by the handlers. */
  class GameSession {
    const gameId: string
    const ownerId: UserId
    const chatId: ChatId
    const rows: nat
    const cols: nat
    const startedAt: int
    const filler: Option<Emoji>
    var grid: seq<Tile>
    var revealed: seq<int>
    var score: nat
    var pairsFound: nat
    var players: Players
    var isFinished: bool
    var finishedAt: Option<int>

    /** The part of the session the reveal-and-match rules read and write. */
    ghost function State(): Board
      reads this
    {
      Board(grid, revealed, score, pairsFound, players)
    }

    ghost predicate Valid()
      reads this
    {
      Inv(State(), rows * cols)
    }

    /** The document `cb_size_select` inserts: nothing revealed, no points, the creator seeded at zero. */
    constructor (gameId: string, ownerId: UserId, chatId: ChatId, rows: nat, cols: nat,
                 grid: seq<Tile>, filler: Option<Emoji>, now: int)
      requires |grid| == rows * cols
      ensures Valid() && State() == InitialBoard(grid, ownerId)
      ensures this.gameId == gameId && this.ownerId == ownerId && this.chatId == chatId
      ensures this.rows == rows && this.cols == cols && this.startedAt == now && this.filler == filler
      ensures !isFinished && finishedAt == None
    {
      this.gameId := gameId;
      this.ownerId := ownerId;
      this.chatId := chatId;
      this.rows := rows;
      this.cols := cols;
      this.startedAt := now;
      this.filler := filler;
      this.grid := grid;
      revealed := [];
      score := 0;
      pairsFound := 0;
      players := [Entry(ownerId, NO_STATS)];
      isFinished := false;
      finishedAt := None;
      new;
      assert State() == InitialBoard(grid, ownerId);
    }

    /**
     * `finalize_game`: roll every `players` item, in order, into its user's statistics,
     * count one more game for `chatId`, and mark the session finished. Nothing stops a
     * session from being finalized again.
     */
    method FinalizeGame(db: Database, chatId: ChatId, now: int)
      modifies this`isFinished, this`finishedAt, db
      ensures db.users == FinalizeUsers(old(db.users), players)
      ensures db.chats == RecordGame(old(db.chats), chatId)
      ensures isFinished && finishedAt == Some(now)
    {
      for i := 0 to |players|
        invariant db.users == FinalizeUsers(old(db.users), players[..i])
        invariant db.chats == old(db.chats)
      {
        assert players[..i + 1][..i] == players[..i];
        db.FinishPlayer(players[i].uid, players[i].stats.score);
      }
      assert players[..|players|] == players;
      db.CountChatGame(chatId);
      isFinished := true;
      finishedAt := Some(now);
    }

    /**
     * `handle_pick`: user `uid` presses cell `index`. The session changes as the rules
     * say; a found pair credits the picker's document; a pair judged with every tile
     * matched finalizes the game for `chatId` at `now`. Whether the session was already
     * finished is not looked at.
     */
    method HandlePick(db: Database, uid: UserId, index: int, chatId: ChatId, now: int) returns (outcome: Outcome)
      requires Valid()
      modifies this`grid, this`revealed, this`score, this`pairsFound, this`players
      modifies this`isFinished, this`finishedAt, db
      ensures Valid()
      ensures var st := Pick(old(State()), rows * cols, filler, uid, index);
        && State() == st.board && outcome == st.outcome
        && db.users == UsersAfterPick(old(db.users), st, uid)
        && db.chats == ChatsAfterPick(old(db.chats), st, chatId)
        && isFinished == (old(isFinished) || Completes(st))
        && finishedAt == (if Completes(st) then Some(now) else old(finishedAt))
    {
      ghost var before := State();
      var total := rows * cols;
      if index < 0 || index >= total {
        return Ignored;
      }
      if grid[index].matched {
        return Ignored;
      }
      if index in revealed {
        return Ignored;
      }
      revealed := revealed + [index];
      if |revealed| != 2 {
        PickKeepsInv(before, total, filler, uid, index);
        return Revealed;
      }
      assert revealed == before.revealed + [index];
      outcome := JudgePair(db, uid, revealed[0], revealed[1]);
      PickKeepsInv(before, total, filler, uid, index);
      if AllMatched(grid) {
        FinalizeGame(db, chatId, now);
      }
    }

    /**
     * The second half of `handle_pick`: judge the selected tiles `i1` (picked first) and
     * `i2`, and empty `revealed`. A found pair also credits the picker's document.
     */
    method JudgePair(db: Database, uid: UserId, i1: int, i2: int) returns (outcome: Outcome)
      requires 0 <= i1 < |grid| && 0 <= i2 < |grid|
      modifies this`grid, this`revealed, this`score, this`pairsFound, this`players, db`users
      ensures var st := Resolve(old(State()), i1, i2, filler, uid);
        && State() == st.board && outcome == st.outcome
        && db.users == if outcome == Match then CreditMatch(old(db.users), uid) else old(db.users)
    {
      var e1, e2 := grid[i1].emoji, grid[i2].emoji;
      if e1 == e2 {
        grid := grid[i1 := grid[i1].(matched := true)];
        grid := grid[i2 := grid[i2].(matched := true)];
        pairsFound := pairsFound + 1;
        score := score + MATCH_POINTS;
        players := Credit(players, uid, PAIR_CREDIT);
        db.CreditPair(uid);
        revealed := [];
        outcome := Match;
      } else if filler.Some? && (e1 == filler.value || e2 == filler.value) {
        if e1 == filler.value {
          grid := grid[i1 := grid[i1].(matched := true)];
        }
        if e2 == filler.value {
          grid := grid[i2 := grid[i2].(matched := true)];
        }
        revealed := [];
        outcome := FillerMatch;
      } else {
        revealed := [];
        outcome := Mismatch;
      }
    }
  }

  /** The `action` field of a game button. */
  datatype GameAction = PickAction | EndAction | OtherAction

  /** What the bot answers a game button with. */
  datatype Reply =
    | GameNotFound          // "Game not found or expired."
    | TooFast               // "Too fast! Wait a second."
    | Picked(outcome: Outcome)
    | Ended                 // "Ending game..." and the results
    | NoReply

  /**
   * `cb_game_actions`: a game button pressed by `uid` in chat `chatId` at `now`, for the
   * session found under the button's game id (`null` when there is none). The cooldown
   * gate runs before the action is looked at; a press that passes it leaves the user
   * refused for one second whatever the action does.
   */
  method OnGameAction(db: Database, session: GameSession?, uid: UserId, action: GameAction,
                      index: int, chatId: ChatId, now: int) returns (reply: Reply)
    requires session != null ==> session.Valid()
    modifies db, session
    ensures session == null ==> reply == GameNotFound && db.users == old(db.users) && db.chats == old(db.chats)
    ensures session != null ==> session.Valid()
    ensures session != null && Throttled(old(db.users), uid, now) ==>
      && reply == TooFast && db.users == old(db.users) && db.chats == old(db.chats)
      && session.State() == old(session.State())
      && session.isFinished == old(session.isFinished) && session.finishedAt == old(session.finishedAt)
    ensures session != null && !Throttled(old(db.users), uid, now) ==>
      && CooldownOf(db.users, uid) == now + COOLDOWN_TICKS
      && (action == PickAction ==>
            var st := Pick(old(session.State()), session.rows * session.cols, session.filler, uid, index);
            && reply == Picked(st.outcome) && session.State() == st.board
            && db.users == UsersAfterPick(ArmCooldown(old(db.users), uid, now), st, uid)
            && db.chats == ChatsAfterPick(old(db.chats), st, chatId)
            && session.isFinished == (old(session.isFinished) || Completes(st))
            && session.finishedAt == (if Completes(st) then Some(now) else old(session.finishedAt)))
      && (action == EndAction ==>
            && reply == Ended && session.State() == old(session.State())
            && db.users == FinalizeUsers(ArmCooldown(old(db.users), uid, now), session.players)
            && db.chats == RecordGame(old(db.chats), chatId)
            && session.isFinished && session.finishedAt == Some(now))
      && (action == OtherAction ==>
            && reply == NoReply && session.State() == old(session.State())
            && db.users == ArmCooldown(old(db.users), uid, now) && db.chats == old(db.chats)
            && session.isFinished == old(session.isFinished) && session.finishedAt == old(session.finishedAt))
  {
    if session == null {
      return GameNotFound;
    }
    var ok := db.PassCooldown(uid, now);
    if !ok {
      return TooFast;
    }
    ghost var armed := db.users;
    match action
    case PickAction =>
      ghost var st := Pick(session.State(), session.rows * session.cols, session.filler, uid, index);
      var outcome := session.HandlePick(db, uid, index, chatId, now);
      UsersAfterPickKeepsCooldowns(armed, st, uid);
      reply := Picked(outcome);
    case EndAction =>
      session.FinalizeGame(db, chatId, now);
      FinalizeUsersKeepsCooldowns(armed, session.players);
      reply := Ended;
    case OtherAction =>
      reply := NoReply;
  }

  /** The random draws fit the board the size label asks for (nothing to fit when it does not parse). */
  predicate SizeChoicesFit(size: string, pool: seq<Emoji>, picks: seq<nat>, swaps: seq<nat>)
  {
    match ParseSize(size)
    case None => true
    case Some(dims) => ChoicesFit(dims.0 * dims.1, pool, picks, swaps)
  }

  /**
   * `cb_size_select`: a size button `size` pressed by `ownerId` in chat `chatId` at `now`.
   * A label that is not two numbers around an `x`, or a board needing more pairs than the
   * pool has symbols, raises before anything is stored (`null`); otherwise a new session
   * with a freshly dealt grid.
   */
  method SelectSize(size: string, gameId: string, ownerId: UserId, chatId: ChatId,
                    pool: seq<Emoji>, picks: seq<nat>, swaps: seq<nat>, now: int)
    returns (session: GameSession?)
    requires SizeChoicesFit(size, pool, picks, swaps)
    ensures ParseSize(size).None? ==> session == null
    ensures ParseSize(size).Some? ==>
      var rows, cols := ParseSize(size).value.0, ParseSize(size).value.1;
      && (session == null <==> |pool| < rows * cols / 2)
      && (session != null ==>
            && fresh(session) && session.Valid()
            && session.rows == rows && session.cols == cols
            && session.gameId == gameId && session.ownerId == ownerId && session.chatId == chatId
            && session.startedAt == now && !session.isFinished && session.finishedAt == None
            && session.State() == InitialBoard(session.grid, ownerId)
            && IsDealt(session.grid, session.filler, rows * cols, Sample(pool, picks)))
  {
    var parsed := ParseSize(size);
    if parsed.None? {
      return null;
    }
    var rows, cols := parsed.value.0, parsed.value.1;
    var deal := GenerateGrid(rows, cols, pool, picks, swaps);
    if deal.InsufficientSymbolPool? {
      return null;
    }
    session := new GameSession(gameId, ownerId, chatId, rows, cols, deal.grid, deal.filler, now);
  }
}
