/**
 * The `users` and `chats` collections as far as the game touches them: the per-user
 * cooldown, the credit for a found pair, the end-of-game roll-up into lifetime statistics,
 * and the global rank shown on the profile.
 *
 * A collection is a map from id to record. An update without `upsert` on a missing id
 * writes nothing; a field a record never received reads as 0.
 */
module Store {
  import opened Common
  import opened Rules

  /** `COOLDOWN_SECONDS = 1.0`, in clock ticks of one millisecond. */
  const COOLDOWN_TICKS: int := 1000

  /** The numeric fields of a `users` document. */
  datatype UserRecord = UserRecord(
    gamesPlayed: nat,
    pairsFound: nat,
    totalPoints: nat,
    bestScore: nat,
    cooldownUntil: int)

  /** The numeric fields of a `chats` document. */
  datatype ChatRecord = ChatRecord(gamesPlayed: nat, totalActivity: nat)

  type Users = map<UserId, UserRecord>
  type Chats = map<ChatId, ChatRecord>

  /** A document holding none of the numeric fields yet. */
  const NEW_USER: UserRecord := UserRecord(0, 0, 0, 0, 0)
  const NEW_CHAT: ChatRecord := ChatRecord(0, 0)

  /** `cooldown_until` of a user, 0 for a user without a document. */
  function CooldownOf(users: Users, uid: UserId): int
  {
    if uid in users then users[uid].cooldownUntil else 0
  }

  /** `total_points` of a user, 0 for a user without a document. */
  function PointsOf(users: Users, uid: UserId): nat
  {
    if uid in users then users[uid].totalPoints else 0
  }

  /** A button press at `now` comes too soon after the user's last accepted one. */
  predicate Throttled(users: Users, uid: UserId, now: int)
  {
    now < CooldownOf(users, uid)
  }

  /**
   * `$set` of `cooldown_until` to `now + COOLDOWN_SECONDS` with `upsert`: afterwards the
   * user is refused exactly until a full second has passed, and no other user is touched.
   */
  function ArmCooldown(users: Users, uid: UserId, now: int): (r: Users)
    ensures uid in r && r[uid].cooldownUntil == now + COOLDOWN_TICKS
    ensures forall t :: Throttled(r, uid, t) <==> t < now + COOLDOWN_TICKS
    ensures uid in users ==> r[uid] == users[uid].(cooldownUntil := now + COOLDOWN_TICKS)
    ensures uid !in users ==> r[uid] == NEW_USER.(cooldownUntil := now + COOLDOWN_TICKS)
    ensures r.Keys == users.Keys + {uid}
    ensures forall u :: u in users && u != uid ==> r[u] == users[u]
  {
    var base := if uid in users then users[uid] else NEW_USER;
    users[uid := base.(cooldownUntil := now + COOLDOWN_TICKS)]
  }

  /**
   * `$inc` of `pairs_found` by 1 and `total_points` by 10 for the picking user, without
   * `upsert`: a user with a document gains exactly one pair and ten points, a user without
   * one gains nothing, and nobody else changes.
   */
  function CreditMatch(users: Users, uid: UserId): (r: Users)
    ensures r.Keys == users.Keys
    ensures uid in users ==> r[uid] == users[uid].(pairsFound := users[uid].pairsFound + 1,
                                                   totalPoints := users[uid].totalPoints + MATCH_POINTS)
    ensures PointsOf(r, uid) == PointsOf(users, uid) + (if uid in users then MATCH_POINTS else 0)
    ensures forall u :: u in users && u != uid ==> r[u] == users[u]
    ensures forall u :: CooldownOf(r, u) == CooldownOf(users, u)
  {
    if uid in users then
      var u := users[uid];
      users[uid := u.(pairsFound := u.pairsFound + 1, totalPoints := u.totalPoints + MATCH_POINTS)]
    else users
  }

  /**
   * One player's roll-up at the end of a game: one more game played, and the best score
   * raised to the session score when that is higher (a session score of 0 never writes,
   * which changes nothing since best scores are never negative).
   */
  function FinalizeUser(u: UserRecord, score: nat): (r: UserRecord)
    ensures r.gamesPlayed == u.gamesPlayed + 1
    ensures r.bestScore >= u.bestScore && r.bestScore >= score
    ensures r.bestScore == u.bestScore || r.bestScore == score
    ensures r == u.(gamesPlayed := r.gamesPlayed, bestScore := r.bestScore)
  {
    var played := u.(gamesPlayed := u.gamesPlayed + 1);
    if score != 0 && score > u.bestScore then played.(bestScore := score) else played
  }

  /** The roll-up of one `players` item; neither update upserts, so a user without a document is skipped. */
  function FinalizePlayer(users: Users, uid: UserId, score: nat): (r: Users)
    ensures r.Keys == users.Keys
    ensures uid in users ==> r[uid].gamesPlayed == users[uid].gamesPlayed + 1
    ensures forall u :: u in users && u != uid ==> r[u] == users[u]
  {
    if uid in users then users[uid := FinalizeUser(users[uid], score)] else users
  }

  /** The roll-up of a whole `players` dict, item by item in its order. */
  function FinalizeUsers(users: Users, players: Players): (r: Users)
    ensures r.Keys == users.Keys
    ensures forall u :: u in users && !Plays(players, u) ==> r[u] == users[u]
  {
    if players == [] then users
    else
      var last := players[|players| - 1];
      FinalizePlayer(FinalizeUsers(users, players[..|players| - 1]), last.uid, last.stats.score)
  }

  /** Whether a user has an entry in a session's `players`. */
  predicate Plays(players: Players, uid: UserId)
  {
    exists i :: 0 <= i < |players| && players[i].uid == uid
  }

  /**
   * What the roll-up does to each user: every player with a document gets one more game
   * and the maximum of the old best and the session score; everyone else is unchanged,
   * and no document is created.
   */
  lemma {:induction false} FinalizeUsersEffect(users: Users, players: Players)
    requires UniqueIds(players)
    ensures FinalizeUsers(users, players).Keys == users.Keys
    ensures forall u :: u in users ==>
      FinalizeUsers(users, players)[u] ==
        if Plays(players, u) then FinalizeUser(users[u], StatsOf(players, u).score) else users[u]
  {
    if players != [] {
      var n := |players| - 1;
      var init, last := players[..n], players[n];
      assert UniqueIds(init);
      FinalizeUsersEffect(users, init);
      forall u | u in users
        ensures FinalizeUsers(users, players)[u] ==
          if Plays(players, u) then FinalizeUser(users[u], StatsOf(players, u).score) else users[u]
      {
        if u == last.uid {
          assert !Plays(init, u);
          assert IndexOf(players, u) == n;
        } else {
          assert Plays(players, u) <==> Plays(init, u) by {
            if Plays(players, u) {
              var i :| 0 <= i < |players| && players[i].uid == u;
              assert init[i].uid == u;
            }
          }
          StatsOfPrefix(players, u);
        }
      }
    }
  }

  /** Dropping the last entry does not change the counters of any other user. */
  lemma {:induction false} StatsOfPrefix(players: Players, u: UserId)
    requires players != [] && players[|players| - 1].uid != u
    ensures StatsOf(players[..|players| - 1], u) == StatsOf(players, u)
  {
  }

  /** The roll-up leaves every cooldown as it was. */
  lemma {:induction false} FinalizeUsersKeepsCooldowns(users: Users, players: Players)
    ensures forall u :: CooldownOf(FinalizeUsers(users, players), u) == CooldownOf(users, u)
  {
    if players != [] {
      FinalizeUsersKeepsCooldowns(users, players[..|players| - 1]);
    }
  }

  /** A user's best score never decreases when a game is rolled up. */
  lemma BestScoreNeverDecreases(users: Users, players: Players, u: UserId)
    requires UniqueIds(players) && u in users
    ensures u in FinalizeUsers(users, players)
    ensures FinalizeUsers(users, players)[u].bestScore >= users[u].bestScore
  {
  }

  /**
   * Ending a game twice rolls it up twice: each player with a document is counted two
   * more games, since nothing records that the game was already finalized.
   */
  lemma EndTwiceCountsTwice(users: Users, players: Players, u: UserId)
    requires UniqueIds(players) && u in users && Plays(players, u)
    ensures u in FinalizeUsers(FinalizeUsers(users, players), players)
    ensures FinalizeUsers(FinalizeUsers(users, players), players)[u].gamesPlayed == users[u].gamesPlayed + 2
  {
    FinalizeUsersEffect(users, players);
    FinalizeUsersEffect(FinalizeUsers(users, players), players);
  }

  /** `$inc` of `games_played` and `total_activity` by 1, with `upsert`. */
  function RecordGame(chats: Chats, chatId: ChatId): (r: Chats)
    ensures r.Keys == chats.Keys + {chatId}
    ensures var before := if chatId in chats then chats[chatId] else NEW_CHAT;
      r[chatId] == ChatRecord(before.gamesPlayed + 1, before.totalActivity + 1)
    ensures forall c :: c in chats && c != chatId ==> r[c] == chats[c]
  {
    var before := if chatId in chats then chats[chatId] else NEW_CHAT;
    chats[chatId := ChatRecord(before.gamesPlayed + 1, before.totalActivity + 1)]
  }

  /** The users with strictly more points than `points`. */
  function Above(users: Users, points: nat): set<UserId>
  {
    set u | u in users && users[u].totalPoints > points
  }

  /**
   * The profile's "Global rank": one more than the number of users with strictly more
   * points. Rank 1 means nobody is ahead; a user with a document ranks within the number
   * of users.
   */
  function GlobalRank(users: Users, uid: UserId): (rank: nat)
    ensures rank >= 1
    ensures rank == 1 <==> forall u :: u in users ==> users[u].totalPoints <= PointsOf(users, uid)
    ensures uid in users ==> rank <= |users|
  {
    RankFacts(users, uid);
    1 + |Above(users, PointsOf(users, uid))|
  }

  /** Nobody is above a user exactly when the set above is empty, and a user is never above themself. */
  lemma RankFacts(users: Users, uid: UserId)
    ensures var above := Above(users, PointsOf(users, uid));
      && (above == {} <==> forall u :: u in users ==> users[u].totalPoints <= PointsOf(users, uid))
      && (uid in users ==> |above| < |users|)
  {
    var above := Above(users, PointsOf(users, uid));
    if uid in users {
      assert uid in users.Keys - above;
      SubsetSize(above, users.Keys);
    }
    if above != {} {
      var w := ElementOf(above);
      assert users[w].totalPoints > PointsOf(users, uid);
    } else {
      assert forall u :: u in users ==> u !in above;
    }
  }

  /** A subset is no larger, and a proper subset is smaller. */
  lemma {:induction false} SubsetSize(a: set<UserId>, b: set<UserId>)
    requires a <= b
    ensures |a| <= |b|
    ensures a < b ==> |a| < |b|
    decreases |b|
  {
    if b != {} {
      var x := ElementOf(b);
      assert |b - {x}| == |b| - 1;
      if x in a {
        assert |a - {x}| == |a| - 1;
        assert a == (a - {x}) + {x} && b == (b - {x}) + {x};
        SubsetSize(a - {x}, b - {x});
      } else {
        SubsetSize(a, b - {x});
      }
    }
  }

  /** Some member of a non-empty set of users. */
  lemma ElementOf(s: set<UserId>) returns (x: UserId)
    requires s != {}
    ensures x in s
  {
    if forall y :: y !in s {
      assert false;
    }
    x :| x in s;
  }

  /** More points never rank worse, and strictly more points rank strictly better. */
  lemma RankOrder(users: Users, a: UserId, b: UserId)
    ensures PointsOf(users, a) >= PointsOf(users, b) ==> GlobalRank(users, a) <= GlobalRank(users, b)
    ensures a in users && PointsOf(users, a) > PointsOf(users, b) ==> GlobalRank(users, a) < GlobalRank(users, b)
  {
    var above, below := Above(users, PointsOf(users, a)), Above(users, PointsOf(users, b));
    if PointsOf(users, a) >= PointsOf(users, b) {
      assert above <= below;
      if a in users && PointsOf(users, a) > PointsOf(users, b) {
        assert a in below - above;
        assert above < below;
      }
      SubsetSize(above, below);
    }
  }

  /** The `users` and `chats` collections, updated in place by the handlers. */
  class Database {
    var users: Users
    var chats: Chats

    constructor (users: Users, chats: Chats)
      ensures this.users == users && this.chats == chats
    {
      this.users := users;
      this.chats := chats;
    }

    /**
     * The cooldown gate: refuse a press that comes before the user's `cooldown_until`
     * without writing anything; otherwise arm the cooldown for one more second.
     */
    method PassCooldown(uid: UserId, now: int) returns (ok: bool)
      modifies this`users
      ensures ok <==> !Throttled(old(users), uid, now)
      ensures users == if ok then ArmCooldown(old(users), uid, now) else old(users)
    {
      var until := if uid in users then users[uid].cooldownUntil else 0;
      if now < until {
        return false;
      }
      var doc := if uid in users then users[uid] else NEW_USER;
      users := users[uid := doc.(cooldownUntil := now + COOLDOWN_TICKS)];
      return true;
    }

    /** The picking user's lifetime credit for a found pair. */
    method CreditPair(uid: UserId)
      modifies this`users
      ensures users == CreditMatch(old(users), uid)
    {
      users := CreditMatch(users, uid);
    }

    /**
     * One player's roll-up, as two updates: `games_played` is incremented, then the
     * document is read back and `best_score` overwritten when the session score is
     * non-zero and above it.
     */
    method FinishPlayer(uid: UserId, score: nat)
      modifies this`users
      ensures users == FinalizePlayer(old(users), uid, score)
    {
      if uid in users {
        users := users[uid := users[uid].(gamesPlayed := users[uid].gamesPlayed + 1)];
      }
      var best := if uid in users then users[uid].bestScore else 0;
      if score != 0 && score > best && uid in users {
        users := users[uid := users[uid].(bestScore := score)];
      }
    }

    /** The chat's game and activity counters, created when missing. */
    method CountChatGame(chatId: ChatId)
      modifies this`chats
      ensures chats == RecordGame(old(chats), chatId)
    {
      chats := RecordGame(chats, chatId);
    }
  }
}
