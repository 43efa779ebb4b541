# Emoji Pair Finder: the game core, in Dafny

Emoji Pair Finder is a Telegram bot (`bot.py`) that runs a pair-matching game in a chat.
A player presses a size button. The bot deals a grid in which every drawn emoji appears
twice, plus a filler tile `⬜` when the cell count is odd. The keyboard shows the emoji of
every unmatched tile at all times, and a `✅` for every matched one; nothing is hidden.
Any chat member may then press tiles. The first press of a pair selects a tile: its
position is recorded in the session's `revealed` list. The second press judges the
pair: equal emojis are matched and earn ten points; a pair that contains the filler
matches only the filler tile and earns nothing; any other pair is dropped. Every
judgement empties `revealed`. When a judged pair leaves every tile matched, or when
someone presses "End Game", the session is rolled up into each player's lifetime
statistics and into the chat's counters. Every pick and "End Game" button passes a
per-user one-second cooldown first. The profile shows a global rank computed from
lifetime points.

Below, a *selected* tile is one whose position is listed in `revealed`.

This project models that core and proves what it promises:

- `common.dfy`: ids, emojis and the filler symbol.
- `size_label.dfy`: how a size label such as `5x8` is split and read as two numbers, and
  that every label the keyboard offers reads back as its own numbers.
- `grid.dfy`: dealing a grid. The sample is drawn, each emoji is placed twice, the filler
  is added for an odd count, the deck is shuffled in place on an array, and each entry
  is wrapped as an unmatched tile.
- `rules.dfy`: `handle_pick` as a function on the session's board (grid, selected tiles,
  score, pairs found, per-player counters). Its invariant says at most one tile is
  selected, it is unmatched, the score is ten points per pair, and the players' counters add
  up to the session's. Every pick preserves the invariant.
- `store.dfy`: the `users` and `chats` collections as a class holding two maps. It covers
  the cooldown gate, the pair credit, the end-of-game roll-up, the chat counters and
  the global rank.
- `session.dfy`: a game session as a class updated in place by `HandlePick`,
  `FinalizeGame` and the button dispatcher `OnGameAction`. `SelectSize` creates it.

The behaviour follows the code, including these quirks:

- Nothing reads `is_finished`. Picks on a finished game are still judged, and "End Game"
  may be pressed again, which rolls the same game up again (`Store.EndTwiceCountsTwice`).
- The emoji pool does not exclude the filler symbol. A grid can therefore hold the filler
  emoji three times, and two of them then match as an ordinary pair for ten points
  (`GridGen.DealtSymbolCounts`).
- When the pairs are all found before the filler was ever paired, the lone filler can
  never be matched. The game then finishes only when someone ends it
  (`Rules.LoneTileStaysUnmatched`, `Session.LoneTileNeverCompletes`).
- `players` holds entries only for the creator and for users who found a pair. A user
  who only produced mismatches is not rolled up.
- The lifetime updates do not upsert. A user without a document gets no pair credit and
  no roll-up. In the handlers the cooldown gate has always created the picker's
  document by then.

Randomness, the clock and the emoji catalogue are parameters. `picks` are the pool
positions `random.sample` chose. `swaps` are the positions `random.shuffle` drew in its
Fisher-Yates pass. `now` is the time in milliseconds. `pool` is the emoji pool.

## Model

| member | source | states |
|---|---|---|
| `SizeLabel.Split` | bot.py:188 | `size.split("x")` yields one part more than there are separators |
| `SizeLabel.SplitJoin` | bot.py:188 | joining the parts with the separator gives the label back |
| `SizeLabel.SplitPartsFree` | bot.py:188 | no part of the split contains the separator |
| `SizeLabel.ParseNat` | bot.py:188 | over ASCII decimal digits, `int(part)` fails (`None`) exactly on an empty part or one holding a non-digit (the forms Python also accepts are under Left out); `SizeLabel.ValueOfNatToString` proves it reads `str(n)` back as `n` |
| `SizeLabel.ParseSize` | bot.py:188 | a label that reads as two numbers contains exactly one `x`; every other label is the `ValueError` case (`None`) |
| `SizeLabel.ValueOfNatToString` | bot.py:188 | `int(str(n)) == n` for every natural number |
| `SizeLabel.ParseSizeOfLabel` | bot.py:178-188 | every label `f"{rows}x{cols}"` reads back as exactly `(rows, cols)` |
| `GridGen.Sample` | bot.py:117 | `random.sample` returns `pair_count` emojis, all from the pool; `GridGen.SampleIsDistinct` proves them distinct |
| `GridGen.DoubleUp` | bot.py:118-121 | the deck loop appends each drawn emoji twice: the deck holds every drawn emoji exactly twice as often as the sample does, and nothing else |
| `GridGen.NewTiles` | bot.py:128 | the grid's emojis are the first `total` deck entries, in order, and no tile starts matched |
| `GridGen.Shuffle` | bot.py:127 | the Fisher-Yates pass, in place on the deck array, only permutes the deck |
| `GridGen.GenerateGrid` | bot.py:110-129 | dealing fails exactly when the pool has fewer than `rows*cols // 2` emojis; otherwise the grid has `rows*cols` unmatched tiles holding each drawn emoji twice plus the filler once for an odd count, and the filler is set exactly for an odd count |
| `GridGen.SampleIsDistinct` | bot.py:117 | distinct pool positions of a repeat-free pool give `pair_count` distinct emojis, all from the pool |
| `GridGen.DealtSymbolCounts` | bot.py:115-129 | in a dealt grid each drawn non-filler emoji occupies two cells, the filler `(2 if drawn) + (1 if odd)` cells, and nothing else appears |
| `Rules.InitialBoard` | bot.py:196-202 | a new session's board keeps the dealt grid and satisfies the invariant: nothing selected, zero score and pairs, the creator's counters adding up to the session's |
| `Rules.Credit` | bot.py:279 | the nested `$inc` keeps every existing entry's user in place and appends an entry `(uid, delta)` exactly when the user had none; `Rules.CreditAddsToTotals` and `Rules.CreditChangesOnlyUser` state its effect on the counters |
| `Rules.CreditKeepsUnique` | bot.py:279 | any credit keeps one entry per user in `players` |
| `Rules.CreditAddsToTotals` | bot.py:279 | the nested `$inc` on `players.<uid>` adds exactly the credit to the sum of all players' counters, whether or not the user had an entry |
| `Rules.CreditChangesOnlyUser` | bot.py:279 | that `$inc` raises the picker's counters by exactly the credit, leaves every other player's unchanged and keeps one entry per user |
| `Rules.PairCreditKeepsTotals` | bot.py:274-280 | after a found pair the players' counters still add up to the session's pairs and score |
| `Rules.Resolve` | bot.py:268-290 | judging a pair always resolves it (match, filler match or mismatch), leaves nothing selected, keeps the grid's size, and is a match exactly when the two emojis are equal; `Rules.ResolveKeepsInv` and `Rules.PickJudgesPair` state the rest |
| `Rules.ResolveKeepsInv` | bot.py:268-290 | judging a pair in any of the three ways leaves nothing selected and keeps score and player counters in step |
| `Rules.Pick` | bot.py:253-290 | a pick keeps every selected position inside the grid, and a first pick of a pair appends exactly the pressed cell to `revealed`; `Rules.PickKeepsInv`, `Rules.PickIgnored` and `Rules.PickRevealCycle` state the rest |
| `Rules.PickKeepsInv` | bot.py:253-290 | every pick preserves the invariant: at most one selected tile, and it is unmatched, score = 10 × pairs, players' counters summing to the session's |
| `Rules.PickIgnored` | bot.py:253-263 | a pick is ignored exactly when the cell is out of range, already matched or already selected, and it changes nothing exactly when it is ignored |
| `Rules.PickRevealCycle` | bot.py:265-290 | the first accepted pick of a pair only selects its tile; the second always judges the pair and empties `revealed` |
| `Rules.PickJudgesPair` | bot.py:268-290 | equal emojis: both tiles matched, +10 points and +1 pair for the session and for the picker only; unequal with a filler: only the filler tile(s) matched, no points; otherwise only `revealed` changes |
| `Rules.PickOnlyMatches` | bot.py:274-287 | no pick changes a tile's emoji or unmatches a tile, and score and pairs never decrease |
| `Rules.LoneTileStaysUnmatched` | bot.py:256-268 | with at most one unmatched tile left, no pick changes the grid |
| `Store.ArmCooldown` | bot.py:246 | after the upserted `$set`, the user is refused exactly at times before `now + 1 s`, and nobody else's document changes |
| `Store.CreditMatch` | bot.py:280 | a user with a document gains exactly one pair and ten lifetime points; a user without one gains nothing; nobody else changes; no cooldown changes |
| `Store.FinalizeUser` | bot.py:305-309 | the roll-up adds one game played and sets the best score to the maximum of the old best and the session score |
| `Store.FinalizePlayer` | bot.py:305-309 | one `players` item's roll-up creates no document, adds one game to the player's document when there is one, and touches no other user; `Store.FinalizeUser` states the best-score update |
| `Store.FinalizeUsers` | bot.py:302-309 | the roll-up of the whole `players` dict creates no document and leaves every user without an entry in `players` unchanged; `Store.FinalizeUsersEffect` states what it does to the players |
| `Store.FinalizeUsersEffect` | bot.py:302-309 | rolling up the whole `players` dict gives each player with a document one more game and the maximum best score, leaves everyone else unchanged and creates no document |
| `Store.FinalizeUsersKeepsCooldowns` | bot.py:302-309 | the roll-up leaves every cooldown unchanged |
| `Store.BestScoreNeverDecreases` | bot.py:308-309 | a user's best score never decreases when a game is rolled up |
| `Store.EndTwiceCountsTwice` | bot.py:301-321 | finalizing the same game twice counts it twice in each player's games played |
| `Store.RecordGame` | bot.py:310 | the chat's games and activity each grow by one, starting from zero for a new chat; no other chat changes |
| `Store.GlobalRank` | bot.py:333 | the rank is at least 1, is 1 exactly when nobody has more points, and is at most the number of users for a user with a document |
| `Store.RankFacts` | bot.py:333 | nobody is ranked above a user exactly when no one has more points, and a user never counts themself |
| `Store.RankOrder` | bot.py:333 | more points never rank worse, and strictly more points rank strictly better |
| `Store.Database.PassCooldown` | bot.py:241-246 | the gate refuses exactly when `now < cooldown_until` and then writes nothing; otherwise it arms the cooldown |
| `Store.Database.CreditPair` | bot.py:280 | updates the users map as `CreditMatch` says |
| `Store.Database.FinishPlayer` | bot.py:305-309 | the `$inc`, read-back and conditional `$set` together update the users map as `FinalizeUser` says, and skip a missing user |
| `Store.Database.CountChatGame` | bot.py:310 | updates the chats map as `RecordGame` says |
| `Session.AllMatched` | bot.py:293 | `all(c["matched"] for c in grid)`: holds exactly when every tile in the grid is matched |
| `Session.UsersAfterPick` | bot.py:274-310 | the pair credit and the roll-up a pick may cause create no user document; `Session.UsersAfterPickKeepsCooldowns`, `Session.MatchPickLifetime` and `Session.CompletingPickRollsUp` state the rest |
| `Session.ChatsAfterPick` | bot.py:292-310 | a pick adds the pressing chat to `chats` only when it completes the game, and changes no other chat's counters |
| `Session.UsersAfterPickKeepsCooldowns` | bot.py:253-311 | nothing a pick does touches any cooldown |
| `Session.MatchPickLifetime` | bot.py:274-294 | a found pair gives the picker's document exactly one more pair and ten more lifetime points, also when the pair completes the game and the roll-up follows |
| `Session.CompletingPickRollsUp` | bot.py:292-309 | a pick that completes the game gives each player with a document one more game and a best score of exactly the larger of their old best and their session score |
| `Session.LastPairCompletes` | bot.py:274-295 | matching the last two unmatched tiles earns ten points and completes the game |
| `Session.LoneTileNeverCompletes` | bot.py:256-295 | with one unmatched tile left, no pick completes the game |
| `Session.GameSession.constructor` | bot.py:190-204 | the inserted document: the given grid, filler and dimensions, nothing revealed, zero score and pairs, the creator seeded at zero, not finished |
| `Session.GameSession.FinalizeGame` | bot.py:301-311 | the players are rolled up in order, the chat's counters grow by one, and the session is marked finished at `now`, whether or not it already was |
| `Session.GameSession.HandlePick` | bot.py:253-295 | the session changes exactly as `Pick` says and keeps the invariant; a found pair credits the picker; a judged pair that leaves every tile matched finalizes the game |
| `Session.GameSession.JudgePair` | bot.py:268-290 | the second half of a pick changes the session as `Resolve` says and credits the picker's document for a found pair |
| `Session.OnGameAction` | bot.py:228-251 | unknown game: nothing changes; too soon: nothing changes; otherwise the cooldown is armed until `now + 1 s` and stays so, and the press is dispatched to the pick (the session, both collections and both finished fields change as `Pick`, `UsersAfterPick` and `ChatsAfterPick` say), to finalization (finished at `now`), or to nothing (the session unchanged) |
| `Session.SelectSize` | bot.py:184-205 | an unreadable label or too small a pool creates nothing; otherwise a fresh valid session with a dealt grid, the creator's ids, nothing played yet, not finished and no finish time |

## Left out

- Telegram itself is not modelled: handlers' registration, keyboards, message texts, `callback.answer`, message deletion, `send_game_grid` and the results text of `finalize_game`.
- The `games` collection is not modelled as a collection: the session found under a button's game id is the `GameSession` object passed in, or `null` when there is none; the read-back after a pick is that same updated object.
- Game-id construction from the clock and the user id is not modelled; the id is a parameter.
- The emoji pool (`emoji.EMOJI_DATA` filtered by length) is a parameter. It is taken to be repeat-free, as the keys of `EMOJI_DATA` are, and it may contain the filler symbol.
- Random draws are parameters; that `random.sample` and `random.shuffle` are uniform is not claimed.
- `GridGen.Shuffle`: states only that the deck is permuted, not which permutation a given sequence of draws produces.
- Wall-clock seconds as floats are integer milliseconds; `started_at` and `finished_at` take the `now` parameter.
- Concurrency is not modelled: each handler runs to completion without interleaving, so races between presses on the same grid are not covered.
- `SizeLabel.ParseNat` / `SizeLabel.ParseSize`: read only ASCII decimal digits, while Python's `int` also accepts surrounding whitespace, a sign, underscores and other Unicode digits.
- The `index` of a game button is an integer parameter; `int(callback_data["index"])` failing on a malformed button is not modelled.
- User and chat fields the game core does not use (`username`, `language`, `chats`, `title`) and the commands that set them (start, help, language, privacy, chat list, broadcast, owner check) are not modelled.
- The profile and leaderboard texts and the leaderboard's sort-and-limit queries are not modelled; only the rank count is.
