/**
 * The two records the calculator stores: a player's rating and counters,
 * and the audit record of one game. Also the per-player counter update a
 * game causes, and the construction of the game record.
 */
module Records {
  import opened Elo

  /** A calendar date, as a day number; ISO "YYYY-MM-DD" strings order the same way. */
  type Date = int

  /** A player's stored record (the value under the player's name). */
  datatype Player = Player(rating: real, gamesPlayed: nat, wins: nat, losses: nat, draws: nat, dateAdded: Date)
  {
    /** Every game played is counted as exactly one of a win, a loss or a draw. */
    predicate Balanced() {
      gamesPlayed == wins + losses + draws
    }
  }

  /** The record of a newly registered player: the chosen rating and all counters zero. */
  function NewPlayer(rating: real, today: Date): (p: Player)
    ensures p.Balanced() && p.gamesPlayed == 0
    ensures p.rating == rating && p.dateAdded == today
  {
    Player(rating, 0, 0, 0, 0, today)
  }

  /** One recorded game with the ratings before and after it. */
  datatype Game = Game(
    player1: string, player2: string, result: string, date: Date,
    player1OldRating: real, player2OldRating: real,
    player1NewRating: real, player2NewRating: real,
    ratingChange1: real, ratingChange2: real)

  /** Which counter a game adds to, for one side. */
  datatype Mark = Win | Loss | Drawn

  /** The score a mark stands for. */
  function Score(m: Mark): real {
    match m
    case Win => 1.0
    case Loss => 0.0
    case Drawn => 0.5
  }

  /**
   * The counters the result token moves for player 1 and player 2:
   * "1-0" and "0-1" give a win and a loss, any other token a draw to each.
   * They agree with the actual scores the rating update uses.
   */
  function Marks(result: string): (m: (Mark, Mark))
    ensures Score(m.0) == ActualScores(result).0 && Score(m.1) == ActualScores(result).1
    ensures m.0 == Win <==> m.1 == Loss
    ensures m.0 == Loss <==> m.1 == Win
    ensures m.0 == Drawn <==> m.1 == Drawn
  {
    if result == "1-0" then (Win, Loss)
    else if result == "0-1" then (Loss, Win)
    else (Drawn, Drawn)
  }

  /**
   * A player's record after one game: the new rating, one more game played,
   * and one more win, loss or draw.
   */
  function Tally(p: Player, newRating: real, m: Mark): (q: Player)
    ensures q.rating == newRating && q.dateAdded == p.dateAdded
    ensures q.gamesPlayed == p.gamesPlayed + 1
    ensures q.wins == p.wins + (if m == Win then 1 else 0)
    ensures q.losses == p.losses + (if m == Loss then 1 else 0)
    ensures q.draws == p.draws + (if m == Drawn then 1 else 0)
    ensures p.Balanced() ==> q.Balanced()
  {
    var q := p.(rating := newRating, gamesPlayed := p.gamesPlayed + 1);
    match m
    case Win => q.(wins := q.wins + 1)
    case Loss => q.(losses := q.losses + 1)
    case Drawn => q.(draws := q.draws + 1)
  }

  /**
   * The record of a game between players rated `rating1` and `rating2`,
   * rated with the default K-factor: the old ratings, the new ratings, and
   * changes that are new minus old and cancel each other.
   */
  function GameRecord(pow10: Pow10, player1: string, player2: string, result: string, date: Date,
                      rating1: real, rating2: real): (g: Game)
    ensures g.player1 == player1 && g.player2 == player2 && g.result == result && g.date == date
    ensures g.player1OldRating == rating1 && g.player2OldRating == rating2
    ensures g.ratingChange1 == g.player1NewRating - rating1
    ensures g.ratingChange2 == g.player2NewRating - rating2
    ensures g.ratingChange1 == RatingChange(rating1, ExpectedScore(pow10, rating1, rating2), ActualScores(result).0, Default)
    ensures g.ratingChange2 == RatingChange(rating2, ExpectedScore(pow10, rating2, rating1), ActualScores(result).1, Default)
    ensures g.ratingChange1 + g.ratingChange2 == 0.0
  {
    var expected1 := ExpectedScore(pow10, rating1, rating2);
    var expected2 := ExpectedScore(pow10, rating2, rating1);
    var (actual1, actual2) := ActualScores(result);
    var newRating1 := NewRating(rating1, expected1, actual1, Default);
    var newRating2 := NewRating(rating2, expected2, actual2, Default);
    ZeroSum(pow10, rating1, rating2, result, Default);
    Game(player1, player2, result, date, rating1, rating2, newRating1, newRating2,
         newRating1 - rating1, newRating2 - rating2)
  }

  /** Two equally rated players who draw keep their ratings. */
  lemma EqualDrawKeepsRatings(pow10: Pow10, player1: string, player2: string, date: Date, rating: real)
    ensures var g := GameRecord(pow10, player1, player2, "1/2-1/2", date, rating, rating);
            g.ratingChange1 == 0.0 && g.ratingChange2 == 0.0
            && g.player1NewRating == rating && g.player2NewRating == rating
  {
    assert ActualScores("1/2-1/2") == (0.5, 0.5);
  }

  /**
   * When the higher-rated player wins, they gain less than half the default
   * K-factor, and the loser loses exactly as much.
   */
  lemma FavouriteWinGainsLittle(pow10: Pow10, player1: string, player2: string, date: Date,
                                rating1: real, rating2: real)
    requires Increasing(pow10)
    requires rating1 > rating2
    ensures var g := GameRecord(pow10, player1, player2, "1-0", date, rating1, rating2);
            0.0 < g.ratingChange1 < 16.0 && g.ratingChange2 == -g.ratingChange1
  {
    FavouriteExpectsMoreThanHalf(pow10, rating1, rating2);
    assert ActualScores("1-0") == (1.0, 0.0);
  }
}
