# Chess rating calculator: the rating engine

This project models the rating engine of a Streamlit chess rating calculator.
It covers four parts:

- **Elo arithmetic** (`elo.dfy`, module `Elo`). This is the expected score
  `1 / (1 + 10^((rB - rA) / 400))`, the rating change `K * (actual - expected)`
  and the new rating `current + K * (actual - expected)`. The K-factor defaults
  to 32 and the initial rating is 1200. The module also maps the result token to
  actual scores: "1-0", "0-1", and anything else counts as a draw.
- **Records** (`records.dfy`, module `Records`). This covers the player record
  (rating plus the counters `games_played`, `wins`, `losses`, `draws`) and the
  game record (old and new ratings and the two rating changes). It also has the
  counter update one game causes (`Tally`) and how a game record is built (`GameRecord`).
- **Views** (`views.dfy`, module `Views`). These are the rating leaderboard, the
  highest-rated and most active players, the total of games played, and each
  player's rating history. The history is rebuilt from the game log after a
  stable sort by date.
- **The store** (`ledger.dfy`, module `Ledger`). A `Store` class holds the player
  map, its key order and the game log. Two methods change them in place:
  `AddPlayer` and `RecordGame`. Beside the class there are the pure transition
  `Settle` and the invariants the two methods keep (`Coherent`):
  - every player has `games_played == wins + losses + draws`;
  - the games played add up to twice the number of logged games;
  - every logged game is between two different registered players;
  - each player's stored rating equals the new rating from the last logged game
    that player played in.

  These invariants hold for the in-memory store. The running program does not
  keep them across a registration, because registering a player saves an empty
  game log and reloads it (see "Behaviour of the program" below).

Design choices:

- **Ratings** are `real`.
- **The exponential `10 ** x`** comes from the runtime, so the model takes it as
  a parameter of type `Pow10`. That is any function that is positive and for
  which `10^(-x)` is the reciprocal of `10^x`. From these two facts alone the
  model proves:
  - expected scores are complementary;
  - equal ratings give 0.5;
  - the rating changes are zero-sum.

  The model does not assume that `10^x` is strictly increasing. The few lemmas
  that need it (`ExpectedScoreDecreasing` and the favourite-wins scenario) take
  it as an explicit hypothesis, `Increasing`.
- **The player map** is a Python dict, and a dict keeps insertion order. That
  order decides ties in `max(...)` and in the stable `sorted(...)`. The store
  therefore keeps `order: seq<string>` beside `players: map<string, Player>`.
- **Dates** are day numbers (`Date = int`). ISO `YYYY-MM-DD` strings sort the
  same way.
- **The initial rating** 1200 (`INITIAL_RATING`) is the value the registration
  form offers (chess_rating_calculator.py:205). The calculator object's own
  `initial_rating` attribute (line 55) holds the same value but is never read.

Behaviour of the program that the model keeps:

- The leaderboard breaks rating ties by map order (Python's stable sort), not by
  name (`LeaderboardKeepsTies`).
- Any result token other than "1-0" and "0-1" is scored and counted as a draw.
  There is no error for an unknown token.
- The form handler silently ignores an empty name. The model returns
  `EmptyName` and changes nothing.
- Registering a player empties the game log in the running program.
  `add_player_page` saves the players together with an empty game list
  (chess_rating_calculator.py:221) and then forces a rerun (line 223). On the
  rerun `main` reloads both files (line 101). From then on the players keep
  their ratings and counters, but the log is empty, so two store invariants
  fail: the games played no longer add up to twice the logged games, and the
  stored ratings no longer match the log. The model does not persist anything.
  `AddPlayer` leaves the in-memory log as it is, and `RegisterKeepsCoherent`
  holds for the in-memory store only.
- Games are logged in recording order, each with the date the user picked
  (line 247), so the log need not be in date order. The rating chart sorts by
  date, so its last point can then differ from the player's current rating.
  `OutOfOrderLogDrifts` builds such a log, and `HistoryEndsAtRating` shows that
  the two agree whenever the log is in date order.

## Model

| member | source | states |
|---|---|---|
| Elo.ExpectedScore | chess_rating_calculator.py:57-59 | the expected score lies strictly between 0 and 1, and equals 0.5 when both ratings are equal |
| Elo.Pow10Zero | chess_rating_calculator.py:59 | 10^0 = 1, which follows from positivity and reciprocity alone |
| Elo.ExpectedScoresComplementary | chess_rating_calculator.py:253-254 | the two players' expected scores sum to exactly 1 |
| Elo.ExpectedScoreDecreasing | chess_rating_calculator.py:57-59 | a stronger opponent strictly lowers one's expected score (given 10^x increasing) |
| Elo.FavouriteExpectsMoreThanHalf | chess_rating_calculator.py:57-59 | the higher-rated player's expected score exceeds 0.5 |
| Elo.RatingChange | chess_rating_calculator.py:67-71 | for positive K the change is positive exactly when the actual score beats the expected score, negative exactly when it falls short, and zero when they match |
| Elo.NewRating | chess_rating_calculator.py:61-65 | the new rating is the current rating plus the rating change, i.e. current + 32 * (actual - expected) by default |
| Elo.ActualScores | chess_rating_calculator.py:256-265 | the two actual scores sum to 1 and each is 0, 0.5 or 1; player 1 scores 1 exactly for "1-0" and player 2 exactly for "0-1" |
| Elo.ZeroSum | chess_rating_calculator.py:252-269 | for every result token, the two rating changes of a game computed with one K-factor cancel |
| Records.NewPlayer | chess_rating_calculator.py:213-220 | a registered player starts with the chosen rating, today's date and all four counters 0, so it is balanced |
| Records.Marks | chess_rating_calculator.py:277-285 | the counters the token moves agree with the actual scores: win/loss pairs with loss/win, and a draw with a draw |
| Records.Tally | chess_rating_calculator.py:272-285 | a player's record after a game has the new rating, one more game and one more win, loss or draw as marked; a balanced record stays balanced |
| Records.GameRecord | chess_rating_calculator.py:252-299 | the game record holds the pre-game ratings; each change is new minus old and equals the Elo change with the default K; the two changes sum to 0 |
| Records.EqualDrawKeepsRatings | chess_rating_calculator.py:252-269 | a draw between equally rated players changes neither rating |
| Records.FavouriteWinGainsLittle | chess_rating_calculator.py:252-269 | when the higher-rated player wins, they gain between 0 and 16 points and the loser loses the same amount |
| Views.Items | chess_rating_calculator.py:328 | the entries list the map's keys in key order, each with its record |
| Views.InsertBy | chess_rating_calculator.py:160 | insertion adds exactly the one element (as a multiset) |
| Views.SortBy | chess_rating_calculator.py:422 | the key sort returns a permutation of its input in non-decreasing key order |
| Views.InsertByStable | chess_rating_calculator.py:160 | insertion keeps the order of the elements with any one key, and the inserted element comes before those with a key equal to its own |
| Views.SortByStable | chess_rating_calculator.py:422 | the sort is stable, as Python's `sorted` is here and at line 160: for every key value, the elements with that key keep their input order |
| Views.SortBySorted | chess_rating_calculator.py:422 | sorting an already sorted sequence leaves it unchanged |
| Views.Leaderboard | chess_rating_calculator.py:160 | the leaderboard (also the table order at line 340) is a permutation of the players in non-increasing rating order |
| Views.LeaderboardKeepsTies | chess_rating_calculator.py:160 | players with equal rating appear on the leaderboard in map order |
| Views.FirstMax | chess_rating_calculator.py:397 | `max` with a key picks a position whose key is at least every key, with every earlier key strictly smaller |
| Views.HighestRated | chess_rating_calculator.py:396-398 | the highest-rated player is a player whose rating is at least everyone's, and the first such in map order |
| Views.MostActive | chess_rating_calculator.py:401-403 | the most active player has played at least as many games as anyone, and is the first such in map order |
| Views.TotalGames | chess_rating_calculator.py:412-414 | the total is at least each player's games played, and is 0 exactly when nobody has played |
| Views.Involving | chess_rating_calculator.py:421-439 | a game is selected for a player exactly when it is logged and involves the player |
| Views.InvolvingKeepsOrder | chess_rating_calculator.py:421-439 | the selected games are the logged games at strictly increasing positions, and those positions are exactly the positions of the games involving the player |
| Views.HistoryFollowsGames | chess_rating_calculator.py:421-439 | with no self-games, a player's history has one point per game involving them, in order, each that game's new rating for them |
| Views.HistoryNonEmpty | chess_rating_calculator.py:421-439 | a player has a non-empty history exactly when some game involves them |
| Views.AppendPoint | chess_rating_calculator.py:426-431 | appending a point creates the player's list when missing and extends only that player's list |
| Views.CollectHistory | chess_rating_calculator.py:422-439 | the loop leaves, for every player, exactly the history over the games in the given order, and no empty lists |
| Views.RatingHistory | chess_rating_calculator.py:420-439 | the rating history has a list exactly for the players in some game, each the player's history over the date-sorted log |
| Ledger.Settle | chess_rating_calculator.py:271-285 | after a game, both players' records are tallied with their new ratings, nobody else changes, no key is added, and balance is kept |
| Ledger.TotalGamesUpdate | chess_rating_calculator.py:412-414 | replacing one record changes the total of games played by the difference in that record's games |
| Ledger.SettleAddsTwoGames | chess_rating_calculator.py:274-275 | recording a game adds exactly 2 to the sum of games played over all players |
| Ledger.RegisterKeepsTotal | chess_rating_calculator.py:213-220 | registering a player appends one key and leaves the sum of games played unchanged |
| Ledger.SettleMatchesLog | chess_rating_calculator.py:288-301 | after a game, each stored rating still equals the player's last new rating in the extended log |
| Ledger.SettleKeepsCoherent | chess_rating_calculator.py:271-301 | recording a game keeps all four store invariants |
| Ledger.RegisterKeepsCoherent | chess_rating_calculator.py:209-220 | registering a player keeps all four store invariants |
| Ledger.HistoryEndsAtRating | chess_rating_calculator.py:421-439 | with a date-ordered log, the rebuilt history of any player who has played ends at the stored rating (no drift) |
| Ledger.OutOfOrderLogDrifts | chess_rating_calculator.py:421-439 | with games dated by the user (line 247), there is a store that keeps every invariant, with a log recorded out of date order, whose date-sorted history for "a" ends at 1216 while "a" is rated below 1216 |
| Ledger.DistinctCount | chess_rating_calculator.py:328 | a list of distinct keys is as long as the set of keys, so the entries list each player once |
| Ledger.Store.Entries | chess_rating_calculator.py:328 | the entries hold every player once, each with its stored record |
| Ledger.Store.constructor | chess_rating_calculator.py:101 | the store starts with the loaded player map, key order and game log |
| Ledger.Store.AddPlayer | chess_rating_calculator.py:209-220 | an empty name or an existing name changes nothing. Otherwise exactly one entry is added, with the given rating and zero counters, and appended to the key order. The game log is untouched and the invariants are kept |
| Ledger.Store.RecordGame | chess_rating_calculator.py:251-301 | unknown or identical players are refused with nothing changed. Otherwise the players become Settle of the old map with the new game record, the log grows by exactly that record, the key order is kept and the invariants are kept |

## Left out

- Streamlit page set-up, CSS, navigation, forms, metrics and markdown
  (chess_rating_calculator.py:1-50, 96-124 and the display parts of every page).
  These are presentation only.
- Plotly charts and pandas DataFrames (chess_rating_calculator.py:339-348, 370-379,
  441-457). These are foreign presentation libraries.
- `load_data` and `save_data` JSON persistence (chess_rating_calculator.py:73-94).
  - The store's constructor takes the loaded contents as arguments.
  - Nothing is written back.
- Ledger.Store.AddPlayer: in the running program a registration also empties
  the game log. `save_data(players, [])` (line 221) writes an empty list, and
  the rerun at line 223 reloads it. The method models the in-memory update
  only, so it keeps the log and the store invariants that the running program
  breaks (see "Behaviour of the program").
- Clocks. `datetime.now()` and the form's date input become the parameters
  `today` and `date`. Dates are day numbers, not formatted strings.
- Floating point. Ratings are exact reals, and IEEE rounding of `10 ** x` and of
  the arithmetic is not modelled. `10 ** x` itself is the `Pow10` parameter.
- The dashboard and statistics metrics other than those named below: player
  count, game count, average rating (`np.mean`), latest game date, the five
  most recent games (lines 134-155, 174-197), the top-6 slice of the leaderboard
  (line 163), the game history table (lines 350-379) and the win-rate string
  (line 336). These are display only.
- The initial-rating widget's bounds of 0 to 3000 (line 205) are form
  validation. `AddPlayer` accepts any rating.
- The "fewer than 2 players" warning (lines 229-231) is a UI guard. The model
  refuses an unknown name instead.
- Ledger.Store.RecordGame: recording a game between a player and themself is
  refused (`SamePlayer`). The form's Player 2 list excludes Player 1 (line 242),
  so the handler never meets that case. As written, it would update one record
  twice; that double update is not modelled.
- Ledger.Store.RecordGame: an unregistered name makes Python raise `KeyError`
  (lines 238, 243) before anything changes. The model returns
  `Rejected(UnknownPlayer)` with the state unchanged.
- Views.Leaderboard: the rankings table at line 340 sorts with pandas
  `sort_values`, which does not promise stability. The model gives that table
  the stable order of line 160.
- `sample_data.py` is fixture data written to files with printed output, and has
  no logic.
- Concurrency. The program is single-process with no locking.
