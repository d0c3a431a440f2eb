/**
 * The calculator's in-memory state: the player map (name to record, in
 * insertion order) and the game log, with the two operations that change
 * them: registering a player and recording a game.
 */
module Ledger {
  import opened Elo
  import opened Records
  import opened Views

  /** `order` lists every key of `players` exactly once: the map's insertion order. */
  ghost predicate KeyOrder(order: seq<string>, players: map<string, Player>) {
    && (forall i, j :: 0 <= i < j < |order| ==> order[i] != order[j])
    && (forall n :: n in players <==> n in order)
  }

  /** Every player's counters satisfy games played = wins + losses + draws. */
  predicate AllBalanced(players: map<string, Player>) {
    forall n :: n in players ==> players[n].Balanced()
  }

  /**
   * The player map after game `g`: both players take their new rating and
   * one more game, with the win, loss or draw the result token gives them;
   * nobody else changes.
   */
  function Settle(players: map<string, Player>, g: Game): (after: map<string, Player>)
    requires g.player1 in players && g.player2 in players && g.player1 != g.player2
    ensures after.Keys == players.Keys
    ensures after[g.player1] == Tally(players[g.player1], g.player1NewRating, Marks(g.result).0)
    ensures after[g.player2] == Tally(players[g.player2], g.player2NewRating, Marks(g.result).1)
    ensures forall n :: n in players && n != g.player1 && n != g.player2 ==> after[n] == players[n]
    ensures AllBalanced(players) ==> AllBalanced(after)
  {
    var (mark1, mark2) := Marks(g.result);
    players[g.player1 := Tally(players[g.player1], g.player1NewRating, mark1)]
           [g.player2 := Tally(players[g.player2], g.player2NewRating, mark2)]
  }

  /** Replacing one player's record changes the total of games by the difference. */
  lemma {:induction false} TotalGamesUpdate(order: seq<string>, players: map<string, Player>, name: string, p: Player)
    requires KeyOrder(order, players)
    requires name in players
    ensures KeyOrder(order, players[name := p])
    ensures TotalGames(Items(order, players[name := p])) + players[name].gamesPlayed
            == TotalGames(Items(order, players)) + p.gamesPlayed
  {
    TotalGamesUpdateAt(order, players, name, p);
  }

  /** TotalGamesUpdate, for any list of distinct names, each a key of `players`. */
  lemma {:induction false} TotalGamesUpdateAt(order: seq<string>, players: map<string, Player>, name: string, p: Player)
    requires forall i, j :: 0 <= i < j < |order| ==> order[i] != order[j]
    requires forall n :: n in order ==> n in players
    requires name in players
    ensures TotalGames(Items(order, players[name := p])) + (if name in order then players[name].gamesPlayed else 0)
            == TotalGames(Items(order, players)) + (if name in order then p.gamesPlayed else 0)
  {
    if order != [] {
      var rest := order[1..];
      assert forall i, j :: 0 <= i < j < |rest| ==> rest[i] != rest[j] by {
        forall i, j | 0 <= i < j < |rest| ensures rest[i] != rest[j] {
          assert rest[i] == order[i + 1] && rest[j] == order[j + 1];
        }
      }
      TotalGamesUpdateAt(rest, players, name, p);
      if order[0] == name {
        assert name !in rest by {
          forall k | 0 <= k < |rest| ensures rest[k] != name {
            assert rest[k] == order[k + 1];
          }
        }
      }
      assert name in order <==> order[0] == name || name in rest;
    }
  }

  /** Recording a game adds 2 to the sum of games played over all players. */
  lemma SettleAddsTwoGames(order: seq<string>, players: map<string, Player>, g: Game)
    requires KeyOrder(order, players)
    requires g.player1 in players && g.player2 in players && g.player1 != g.player2
    ensures TotalGames(Items(order, Settle(players, g))) == TotalGames(Items(order, players)) + 2
  {
    var (mark1, mark2) := Marks(g.result);
    var q1 := Tally(players[g.player1], g.player1NewRating, mark1);
    var q2 := Tally(players[g.player2], g.player2NewRating, mark2);
    var middle := players[g.player1 := q1];
    TotalGamesUpdate(order, players, g.player1, q1);
    TotalGamesUpdate(order, middle, g.player2, q2);
    assert middle[g.player2] == players[g.player2];
  }

  /** The total over a sequence of entries with one more entry at the end. */
  lemma {:induction false} TotalGamesSnoc(items: seq<Entry>, e: Entry)
    ensures TotalGames(items + [e]) == TotalGames(items) + e.1.gamesPlayed
  {
    if items != [] {
      assert (items + [e])[1..] == items[1..] + [e];
      TotalGamesSnoc(items[1..], e);
    }
  }

  /** Registering a player, with no games, leaves the sum of games played as it was. */
  lemma RegisterKeepsTotal(order: seq<string>, players: map<string, Player>, name: string, p: Player)
    requires KeyOrder(order, players)
    requires name !in players && p.gamesPlayed == 0
    ensures KeyOrder(order + [name], players[name := p])
    ensures TotalGames(Items(order + [name], players[name := p])) == TotalGames(Items(order, players))
  {
    var updated := players[name := p];
    var before, after := Items(order, players), Items(order + [name], updated);
    assert after == before + [(name, p)];
    TotalGamesSnoc(before, (name, p));
    var o := order + [name];
    forall i, j | 0 <= i < j < |o| ensures o[i] != o[j] {
      if j == |order| {
        assert o[i] in order;
      }
    }
  }

  /** A list of distinct names has as many elements as the set of its names. */
  lemma {:induction false} DistinctCount(order: seq<string>)
    requires forall i, j :: 0 <= i < j < |order| ==> order[i] != order[j]
    ensures |set n | n in order| == |order|
  {
    if order != [] {
      var rest := order[1..];
      forall i, j | 0 <= i < j < |rest| ensures rest[i] != rest[j] {
        assert rest[i] == order[i + 1] && rest[j] == order[j + 1];
      }
      DistinctCount(rest);
      assert order[0] !in rest by {
        forall k | 0 <= k < |rest| ensures rest[k] != order[0] {
          assert rest[k] == order[k + 1];
        }
      }
      assert (set n | n in order) == (set n | n in rest) + {order[0]};
    }
  }

  /**
   * Each player who has played is rated as the last logged game involving
   * them left them: the log's new ratings do not drift from the stored ones.
   */
  ghost predicate RatingsMatchLog(players: map<string, Player>, games: seq<Game>) {
    forall p :: p in players && HistoryOf(p, games) != [] ==>
      HistoryOf(p, games)[|HistoryOf(p, games)| - 1].rating == players[p].rating
  }

  /**
   * The invariants the two operations keep: every player is balanced, the
   * games played add up to two per logged game, every logged game is
   * between two different registered players, and stored ratings match
   * the log.
   */
  ghost predicate Coherent(order: seq<string>, players: map<string, Player>, games: seq<Game>)
    requires KeyOrder(order, players)
  {
    && AllBalanced(players)
    && TotalGames(Items(order, players)) == 2 * |games|
    && (forall g :: g in games ==> g.player1 in players && g.player2 in players && g.player1 != g.player2)
    && RatingsMatchLog(players, games)
  }

  /** Recording a game keeps the stored ratings in line with the log. */
  lemma SettleMatchesLog(players: map<string, Player>, games: seq<Game>, g: Game)
    requires RatingsMatchLog(players, games)
    requires g.player1 in players && g.player2 in players && g.player1 != g.player2
    ensures RatingsMatchLog(Settle(players, g), games + [g])
  {
    var after := Settle(players, g);
    forall p | p in after && HistoryOf(p, games + [g]) != []
      ensures HistoryOf(p, games + [g])[|HistoryOf(p, games + [g])| - 1].rating == after[p].rating
    {
      assert (games + [g])[..|games|] == games;
      assert HistoryOf(p, games + [g]) == HistoryOf(p, games) + SidePoints(p, g);
    }
  }

  /**
   * No drift: when the log is in date order, the rating history of a player
   * who has played ends at the player's stored rating.
   */
  lemma HistoryEndsAtRating(order: seq<string>, players: map<string, Player>, games: seq<Game>, p: string)
    requires KeyOrder(order, players) && Coherent(order, players, games)
    requires SortedBy(games, DateKey)
    requires p in players && exists g :: g in games && Involves(g, p)
    ensures var h := HistoryOf(p, SortBy(games, DateKey));
            h != [] && h[|h| - 1].rating == players[p].rating
  {
    SortBySorted(games, DateKey);
    HistoryNonEmpty(p, games);
    LastPointIsRating(players, games, p);
  }

  /** Under RatingsMatchLog, the last point of a non-empty history is the stored rating. */
  lemma LastPointIsRating(players: map<string, Player>, games: seq<Game>, p: string)
    requires RatingsMatchLog(players, games)
    requires p in players && HistoryOf(p, games) != []
    ensures var h := HistoryOf(p, games); h[|h| - 1].rating == players[p].rating
  {
  }

  /** A log of two games between "a" and "b", rated as the second game left them. */
  ghost function TwoGameStore(first: Game, second: Game): (map<string, Player>, seq<Game>) {
    (map["a" := Player(second.player1NewRating, 2, 1, 1, 0, 0),
         "b" := Player(second.player2NewRating, 2, 1, 1, 0, 0)],
     [first, second])
  }

  /** Such a two-game store keeps every store invariant. */
  lemma TwoGameStoreCoherent(first: Game, second: Game)
    requires first.player1 == "a" && first.player2 == "b"
    requires second.player1 == "a" && second.player2 == "b"
    ensures var (players, games) := TwoGameStore(first, second);
            KeyOrder(["a", "b"], players) && Coherent(["a", "b"], players, games)
  {
    var (players, games) := TwoGameStore(first, second);
    assert Items(["a", "b"], players) == [("a", players["a"]), ("b", players["b"])];
    assert games[..1] == [first];
    forall p | p in players && HistoryOf(p, games) != []
      ensures HistoryOf(p, games)[|HistoryOf(p, games)| - 1].rating == players[p].rating
    {
      assert HistoryOf(p, games) == HistoryOf(p, [first]) + SidePoints(p, second);
    }
  }

  /** Sorting by date puts a day-3 game before a day-5 game recorded earlier. */
  lemma DateSortSwaps(first: Game, second: Game)
    requires first.date == 5 && second.date == 3
    ensures SortBy([first, second], DateKey) == [second, first]
  {
    assert [first, second][1..] == [second];
  }

  /**
   * Games are logged in the order they are recorded, each with the date the
   * user picked, so the log need not be in date order. Then the date-sorted
   * history can end away from the stored rating: player "a" beats "b" on
   * day 5, then the loss to "b" is recorded with day 3; the history's last
   * point is the win's 1216 while "a" is rated by the later-recorded loss.
   */
  lemma OutOfOrderLogDrifts(pow10: Pow10)
    returns (order: seq<string>, players: map<string, Player>, games: seq<Game>)
    ensures KeyOrder(order, players) && Coherent(order, players, games)
    ensures !SortedBy(games, DateKey)
    ensures "a" in players
    ensures var h := HistoryOf("a", SortBy(games, DateKey));
            h != [] && h[|h| - 1].rating == 1216.0 && players["a"].rating < 1216.0
  {
    var win := GameRecord(pow10, "a", "b", "1-0", 5, 1200.0, 1200.0);
    assert win.player1NewRating == 1216.0;
    var loss := GameRecord(pow10, "a", "b", "0-1", 3, 1216.0, 1184.0);
    assert loss.player1NewRating < 1216.0;
    order := ["a", "b"];
    players, games := TwoGameStore(win, loss).0, TwoGameStore(win, loss).1;
    TwoGameStoreCoherent(win, loss);
    DateSortSwaps(win, loss);
    assert !SortedBy(games, DateKey) by {
      assert DateKey(games[0]) > DateKey(games[1]);
    }
    assert [loss, win][..1] == [loss];
  }

  /** Recording a game keeps the store consistent. */
  lemma SettleKeepsCoherent(order: seq<string>, players: map<string, Player>, games: seq<Game>, g: Game)
    requires KeyOrder(order, players) && Coherent(order, players, games)
    requires g.player1 in players && g.player2 in players && g.player1 != g.player2
    ensures KeyOrder(order, Settle(players, g))
    ensures Coherent(order, Settle(players, g), games + [g])
  {
    SettleAddsTwoGames(order, players, g);
    SettleMatchesLog(players, games, g);
  }

  /** Registering a player keeps the store consistent. */
  lemma RegisterKeepsCoherent(order: seq<string>, players: map<string, Player>, games: seq<Game>,
                                name: string, p: Player)
    requires KeyOrder(order, players) && Coherent(order, players, games)
    requires name !in players && p.gamesPlayed == 0 && p.Balanced()
    ensures KeyOrder(order + [name], players[name := p])
    ensures Coherent(order + [name], players[name := p], games)
  {
    RegisterKeepsTotal(order, players, name, p);
    HistoryNonEmpty(name, games);
  }

  /** Why a game was not recorded. */
  datatype RecordError = UnknownPlayer | SamePlayer

  /** What recording a game returns. */
  datatype Outcome = Recorded(game: Game) | Rejected(error: RecordError)

  /** What registering a player returns. */
  datatype Registration = Added | EmptyName | Duplicate

  /** The player map and the game log, updated in place. */
  class Store {
    var players: map<string, Player>
    var order: seq<string>
    var games: seq<Game>

    /** The map's key order lists its keys once each. */
    ghost predicate Valid()
      reads this
    {
      KeyOrder(order, players)
    }

    /** The store's counter and log invariants (see Coherent). */
    ghost predicate Consistent()
      reads this
      requires Valid()
    {
      Coherent(order, players, games)
    }

    /** The players in map order, as the views iterate them. */
    function Entries(): (items: seq<Entry>)
      reads this
      requires Valid()
      ensures |items| == |players|
      ensures forall n :: n in players ==> (n, players[n]) in items
      ensures forall e :: e in items ==> e.0 in players && players[e.0] == e.1
    {
      DistinctCount(order);
      assert players.Keys == set n | n in order;
      var items := Items(order, players);
      assert forall n :: n in order ==> (n, players[n]) in items by {
        forall n | n in order ensures (n, players[n]) in items {
          var i :| 0 <= i < |order| && order[i] == n;
          assert items[i] == (n, players[n]);
        }
      }
      items
    }

    /** A store holding the player map and game log loaded at start-up. */
    constructor (loadedPlayers: map<string, Player>, loadedOrder: seq<string>, loadedGames: seq<Game>)
      requires KeyOrder(loadedOrder, loadedPlayers)
      ensures Valid()
      ensures players == loadedPlayers && order == loadedOrder && games == loadedGames
    {
      players, order, games := loadedPlayers, loadedOrder, loadedGames;
    }
 
    /**
     * Registers a player under `name` with the chosen rating and zero
     * counters. An empty name is ignored and an existing name is refused;
     * either way nothing changes. The game log is left alone.
     */
    method AddPlayer(name: string, rating: real, today: Date) returns (outcome: Registration)
      requires Valid()
      modifies this
      ensures Valid() && games == old(games)
      ensures outcome == Added <==> name != "" && name !in old(players)
      ensures outcome == EmptyName <==> name == ""
      ensures outcome == Duplicate <==> name != "" && name in old(players)
      ensures outcome == Added ==> players == old(players)[name := NewPlayer(rating, today)]
                                   && order == old(order) + [name]
      ensures outcome != Added ==> players == old(players) && order == old(order)
      ensures old(Consistent()) ==> Consistent()
    {
      if name == "" {
        return EmptyName;
      }
      if name in players {
        return Duplicate;
      }
      if Consistent() {
        RegisterKeepsCoherent(order, players, games, name, NewPlayer(rating, today));
      }
      players := players[name := Player(rating, 0, 0, 0, 0, today)];
      order := order + [name];
      outcome := Added;
    }

    /**
     * Records a game between `player1` and `player2` with the result token
     * `result`: rates it with the default K-factor, updates both players'
     * ratings and counters in place and appends the game to the log.
     * A name that is not registered, or the same name twice, is refused
     * before anything changes.
     */
    method RecordGame(pow10: Pow10, player1: string, player2: string, result: string, date: Date)
      returns (outcome: Outcome)
      requires Valid()
      modifies this
      ensures Valid() && order == old(order)
      ensures outcome == Rejected(UnknownPlayer) <==> player1 !in old(players) || player2 !in old(players)
      ensures outcome == Rejected(SamePlayer) <==>
                player1 in old(players) && player2 in old(players) && player1 == player2
      ensures outcome.Rejected? ==> players == old(players) && games == old(games)
      ensures outcome.Recorded? ==>
                && player1 in old(players) && player2 in old(players) && player1 != player2
                && outcome.game == GameRecord(pow10, player1, player2, result, date,
                                              old(players)[player1].rating, old(players)[player2].rating)
                && players == Settle(old(players), outcome.game)
                && games == old(games) + [outcome.game]
      ensures old(Consistent()) ==> Consistent()
    {
      if player1 !in players || player2 !in players {
        return Rejected(UnknownPlayer);
      }
      if player1 == player2 {
        return Rejected(SamePlayer);
      }
      ghost var before, loggedBefore := players, games;
      ghost var wasConsistent := Consistent();
      var rating1 := players[player1].rating;
      var rating2 := players[player2].rating;

      var expected1 := ExpectedScore(pow10, rating1, rating2);
      var expected2 := ExpectedScore(pow10, rating2, rating1);
      var (actual1, actual2) := ActualScores(result);
      var newRating1 := NewRating(rating1, expected1, actual1, Default);
      var newRating2 := NewRating(rating2, expected2, actual2, Default);

      var record1, record2 := players[player1], players[player2];
      record1 := record1.(rating := newRating1);
      record2 := record2.(rating := newRating2);
      record1 := record1.(gamesPlayed := record1.gamesPlayed + 1);
      record2 := record2.(gamesPlayed := record2.gamesPlayed + 1);
      if result == "1-0" {
        record1 := record1.(wins := record1.wins + 1);
        record2 := record2.(losses := record2.losses + 1);
      } else if result == "0-1" {
        record1 := record1.(losses := record1.losses + 1);
        record2 := record2.(wins := record2.wins + 1);
      } else {
        record1 := record1.(draws := record1.draws + 1);
        record2 := record2.(draws := record2.draws + 1);
      }
      assert record1 == Tally(before[player1], newRating1, Marks(result).0);
      assert record2 == Tally(before[player2], newRating2, Marks(result).1);
      players := players[player1 := record1][player2 := record2];

      var game := Game(player1, player2, result, date, rating1, rating2, newRating1, newRating2,
                       newRating1 - rating1, newRating2 - rating2);
      games := games + [game];
      outcome := Recorded(game);

      assert game == GameRecord(pow10, player1, player2, result, date, rating1, rating2);
      assert players == Settle(before, game);
      if wasConsistent {
        SettleKeepsCoherent(order, before, loggedBefore, game);
      }
    }
  }
}
