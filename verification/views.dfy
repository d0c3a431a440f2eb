/**
 * Read-only views over the player map and the game log: the rating
 * leaderboard, the highest-rated and most active players, the total of
 * games played, and each player's rating history.
 */
module Views {
  import opened Records

  /** A player map entry as the calculator iterates it: the name and its record. */
  type Entry = (string, Player)

  /** The map's entries in key order. */
  function Items(order: seq<string>, players: map<string, Player>): (items: seq<Entry>)
    requires forall n :: n in order ==> n in players
    ensures |items| == |order|
    ensures forall i :: 0 <= i < |order| ==> items[i] == (order[i], players[order[i]])
  {
    if order == [] then [] else [(order[0], players[order[0]])] + Items(order[1..], players)
  }

  // ---------------------------------------------------------------- sorting

  /** `s` is in non-decreasing order of `key`. */
  ghost predicate SortedBy<T>(s: seq<T>, key: T -> real) {
    forall i, j :: 0 <= i < j < |s| ==> key(s[i]) <= key(s[j])
  }

  /** Inserts `x` before the first element whose key is not smaller than its own. */
  function InsertBy<T>(x: T, s: seq<T>, key: T -> real): (r: seq<T>)
    ensures multiset(r) == multiset(s) + multiset{x}
    ensures |r| == |s| + 1
    ensures r[0] == x || (s != [] && r[0] == s[0])
  {
    if s == [] || key(x) <= key(s[0]) then
      [x] + s
    else
      assert s == [s[0]] + s[1..];
      [s[0]] + InsertBy(x, s[1..], key)
  }

  /** Inserting into a sorted sequence keeps it sorted. */
  lemma {:induction false} InsertBySorted<T>(x: T, s: seq<T>, key: T -> real)
    requires SortedBy(s, key)
    ensures SortedBy(InsertBy(x, s, key), key)
  {
    if s != [] && key(s[0]) < key(x) {
      var t := InsertBy(x, s[1..], key);
      InsertBySorted(x, s[1..], key);
      assert key(s[0]) <= key(t[0]);
      var r := [s[0]] + t;
      forall i, j | 0 <= i < j < |r| ensures key(r[i]) <= key(r[j]) {
        if i == 0 {
          assert key(t[0]) <= key(t[j - 1]);
        }
      }
    }
  }

  /**
   * Python's `sorted` with a key: ascending and stable (elements with equal
   * keys keep their original order).
   */
  function SortBy<T>(s: seq<T>, key: T -> real): (r: seq<T>)
    ensures multiset(r) == multiset(s)
    ensures SortedBy(r, key)
  {
    if s == [] then [] else
      assert s == [s[0]] + s[1..];
      InsertBySorted(s[0], SortBy(s[1..], key), key);
      InsertBy(s[0], SortBy(s[1..], key), key)
  }

  /** The elements of `s` whose key is `v`, in their order in `s`. */
  function WithKey<T>(s: seq<T>, key: T -> real, v: real): seq<T> {
    if s == [] then [] else (if key(s[0]) == v then [s[0]] else []) + WithKey(s[1..], key, v)
  }

  /** Insertion passes only elements with a smaller key, so it keeps the order among equal keys. */
  lemma {:induction false} InsertByStable<T>(x: T, s: seq<T>, key: T -> real, v: real)
    ensures WithKey(InsertBy(x, s, key), key, v) == (if key(x) == v then [x] else []) + WithKey(s, key, v)
  {
    if s != [] && key(s[0]) < key(x) {
      var r := InsertBy(x, s, key);
      assert r == [s[0]] + InsertBy(x, s[1..], key);
      assert r[1..] == InsertBy(x, s[1..], key);
      InsertByStable(x, s[1..], key, v);
    }
  }

  /** The sort is stable: for every key value, the elements with that key keep their order. */
  lemma {:induction false} SortByStable<T>(s: seq<T>, key: T -> real, v: real)
    ensures WithKey(SortBy(s, key), key, v) == WithKey(s, key, v)
  {
    if s != [] {
      SortByStable(s[1..], key, v);
      InsertByStable(s[0], SortBy(s[1..], key), key, v);
    }
  }

  /** Sorting an already sorted sequence leaves it as it is (no element moves past an equal one). */
  lemma {:induction false} SortBySorted<T>(s: seq<T>, key: T -> real)
    requires SortedBy(s, key)
    ensures SortBy(s, key) == s
  {
    if s != [] {
      assert SortedBy(s[1..], key);
      SortBySorted(s[1..], key);
      assert s == [s[0]] + s[1..];
    }
  }

  // ------------------------------------------------------------ leaderboard

  /**
   * The players by rating, highest first: Python's `sorted(..., reverse=True)`,
   * which keeps entries of equal rating in map order, is a stable ascending
   * sort on the negated rating.
   */
  function Leaderboard(items: seq<Entry>): (board: seq<Entry>)
    ensures multiset(board) == multiset(items)
    ensures forall i, j :: 0 <= i < j < |board| ==> board[i].1.rating >= board[j].1.rating
  {
    SortBy(items, NegRating)
  }

  /** The leaderboard's sort key: the rating, negated. */
  function NegRating(e: Entry): real {
    -e.1.rating
  }

  /** Players of equal rating stay in map order on the leaderboard. */
  lemma LeaderboardKeepsTies(items: seq<Entry>, rating: real)
    ensures WithKey(Leaderboard(items), NegRating, -rating) == WithKey(items, NegRating, -rating)
  {
    SortByStable(items, NegRating, -rating);
  }

  // ----------------------------------------------------------------- maxima

  /**
   * Python's `max` with a key, as a position: the first element whose key
   * is greatest (a later element replaces the current one only when its
   * key is strictly greater).
   */
  function FirstMax<T>(s: seq<T>, key: T -> real): (i: nat)
    requires |s| > 0
    ensures i < |s|
    ensures forall j :: 0 <= j < |s| ==> key(s[j]) <= key(s[i])
    ensures forall j :: 0 <= j < i ==> key(s[j]) < key(s[i])
  {
    if |s| == 1 then 0
    else
      var m := FirstMax(s[..|s| - 1], key);
      if key(s[|s| - 1]) > key(s[m]) then |s| - 1 else m
  }

  /** The first player, in map order, whose rating is the highest. */
  function HighestRated(items: seq<Entry>): (top: Entry)
    requires |items| > 0
    ensures top in items
    ensures forall e :: e in items ==> e.1.rating <= top.1.rating
    ensures exists i :: 0 <= i < |items| && items[i] == top
                        && forall j :: 0 <= j < i ==> items[j].1.rating < top.1.rating
  {
    var i := FirstMax(items, (e: Entry) => e.1.rating);
    items[i]
  }

  /** The first player, in map order, who has played the most games. */
  function MostActive(items: seq<Entry>): (top: Entry)
    requires |items| > 0
    ensures top in items
    ensures forall e :: e in items ==> e.1.gamesPlayed <= top.1.gamesPlayed
    ensures exists i :: 0 <= i < |items| && items[i] == top
                        && forall j :: 0 <= j < i ==> items[j].1.gamesPlayed < top.1.gamesPlayed
  {
    var i := FirstMax(items, (e: Entry) => e.1.gamesPlayed as real);
    items[i]
  }

  // ------------------------------------------------------------ total games

  /** Sum of `games_played` over the players. */
  function TotalGames(items: seq<Entry>): (total: nat)
    ensures forall i :: 0 <= i < |items| ==> items[i].1.gamesPlayed <= total
    ensures total == 0 <==> forall i :: 0 <= i < |items| ==> items[i].1.gamesPlayed == 0
  {
    if items == [] then 0 else items[0].1.gamesPlayed + TotalGames(items[1..])
  }

  // --------------------------------------------------------- rating history

  /** One point of a player's rating history. */
  datatype Point = Point(date: Date, rating: real)

  /** Game `g` has `p` on one of its sides. */
  predicate Involves(g: Game, p: string) {
    g.player1 == p || g.player2 == p
  }

  /** The points a game adds to `p`'s history: one per side `p` plays. */
  function SidePoints(p: string, g: Game): seq<Point> {
    (if g.player1 == p then [Point(g.date, g.player1NewRating)] else [])
    + (if g.player2 == p then [Point(g.date, g.player2NewRating)] else [])
  }

  /** The history of `p` collected over the games in the order given. */
  function HistoryOf(p: string, games: seq<Game>): seq<Point> {
    if games == [] then []
    else HistoryOf(p, games[..|games| - 1]) + SidePoints(p, games[|games| - 1])
  }

  /** The games that involve `p`, in the order given. */
  function Involving(p: string, games: seq<Game>): (gs: seq<Game>)
    ensures forall g :: g in gs <==> g in games && Involves(g, p)
  {
    if games == [] then []
    else
      var init, last := games[..|games| - 1], games[|games| - 1];
      assert games == init + [last];
      Involving(p, init) + (if Involves(last, p) then [last] else [])
  }

  /** The positions in `games` of the games that involve `p`, in the order given. */
  ghost function Positions(p: string, games: seq<Game>): seq<int> {
    if games == [] then []
    else
      var n := |games| - 1;
      Positions(p, games[..n]) + (if Involves(games[n], p) then [n] else [])
  }

  /**
   * The games involving `p` keep the log's order: they are the games at
   * strictly increasing positions, and those positions are exactly the
   * positions of the games that involve `p`.
   */
  lemma InvolvingKeepsOrder(p: string, games: seq<Game>)
    ensures |Positions(p, games)| == |Involving(p, games)|
    ensures forall k :: 0 <= k < |Positions(p, games)| ==>
              0 <= Positions(p, games)[k] < |games| && Involving(p, games)[k] == games[Positions(p, games)[k]]
    ensures forall k, l :: 0 <= k < l < |Positions(p, games)| ==> Positions(p, games)[k] < Positions(p, games)[l]
    ensures forall j :: 0 <= j < |games| ==> (j in Positions(p, games) <==> Involves(games[j], p))
  {
    PositionsSelect(p, games);
    PositionsIncrease(p, games);
    PositionsExact(p, games);
  }

  /** Each selected game is the game at the matching position. */
  lemma {:induction false} PositionsSelect(p: string, games: seq<Game>)
    ensures |Positions(p, games)| == |Involving(p, games)|
    ensures forall k :: 0 <= k < |Positions(p, games)| ==>
              0 <= Positions(p, games)[k] < |games| && Involving(p, games)[k] == games[Positions(p, games)[k]]
  {
    if games != [] {
      var n := |games| - 1;
      var init := games[..n];
      PositionsSelect(p, init);
      assert forall j :: 0 <= j < n ==> init[j] == games[j];
    }
  }

  /** The positions are strictly increasing. */
  lemma {:induction false} PositionsIncrease(p: string, games: seq<Game>)
    ensures forall k :: 0 <= k < |Positions(p, games)| ==> 0 <= Positions(p, games)[k] < |games|
    ensures forall k, l :: 0 <= k < l < |Positions(p, games)| ==> Positions(p, games)[k] < Positions(p, games)[l]
  {
    if games != [] {
      var n := |games| - 1;
      PositionsIncrease(p, games[..n]);
    }
  }

  /** A position is listed exactly when the game there involves `p`. */
  lemma {:induction false} PositionsExact(p: string, games: seq<Game>)
    ensures forall j :: 0 <= j < |games| ==> (j in Positions(p, games) <==> Involves(games[j], p))
  {
    if games != [] {
      var n := |games| - 1;
      var init := games[..n];
      PositionsExact(p, init);
      PositionsIncrease(p, init);
      assert forall j :: 0 <= j < n ==> init[j] == games[j];
    }
  }

  /** `p`'s side of a game that involves `p`: the game's date and `p`'s new rating. */
  function SideOf(p: string, g: Game): Point
    requires Involves(g, p)
  {
    if g.player1 == p then Point(g.date, g.player1NewRating) else Point(g.date, g.player2NewRating)
  }

  /**
   * When no game pits a player against themself, the history of `p` has one
   * point per game involving `p`, in order, and each point is that game's
   * date with `p`'s new rating from it.
   */
  lemma {:induction false} HistoryFollowsGames(p: string, games: seq<Game>)
    requires forall g :: g in games ==> g.player1 != g.player2
    ensures |HistoryOf(p, games)| == |Involving(p, games)|
    ensures forall k :: 0 <= k < |HistoryOf(p, games)| ==>
              HistoryOf(p, games)[k] == SideOf(p, Involving(p, games)[k])
  {
    if games != [] {
      var init := games[..|games| - 1];
      assert forall g :: g in init ==> g in games;
      HistoryFollowsGames(p, init);
    }
  }

  /** A player has history exactly when some game involves them. */
  lemma {:induction false} HistoryNonEmpty(p: string, games: seq<Game>)
    ensures HistoryOf(p, games) != [] <==> exists g :: g in games && Involves(g, p)
  {
    if games != [] {
      var init, last := games[..|games| - 1], games[|games| - 1];
      HistoryNonEmpty(p, init);
      assert HistoryOf(p, games) == HistoryOf(p, init) + SidePoints(p, last);
      assert SidePoints(p, last) != [] <==> Involves(last, p);
      assert games == init + [last];
      if Involves(last, p) {
        assert last in games;
      } else {
        assert forall g :: g in games && Involves(g, p) ==> g in init;
      }
    }
  }

  /** The sort key of a game: its date. */
  function DateKey(g: Game): real {
    g.date as real
  }

  /** The history list of `p` in a map of histories, empty when `p` has none. */
  function Get(history: map<string, seq<Point>>, p: string): seq<Point> {
    if p in history then history[p] else []
  }

  /** One game's step of the history loop, for one player `p`. */
  lemma HistoryGrows(p: string, before: seq<Point>, middle: seq<Point>, after: seq<Point>,
                     prefix: seq<Game>, game: Game)
    requires before == HistoryOf(p, prefix)
    requires middle == before + (if game.player1 == p then [Point(game.date, game.player1NewRating)] else [])
    requires after == middle + (if game.player2 == p then [Point(game.date, game.player2NewRating)] else [])
    ensures after == HistoryOf(p, prefix + [game])
  {
    assert (prefix + [game])[..|prefix|] == prefix;
  }

  /** Appends `pt` to the list of `name`, starting the list when `name` has none yet. */
  method AppendPoint(history: map<string, seq<Point>>, name: string, pt: Point)
    returns (updated: map<string, seq<Point>>)
    ensures forall p :: Get(updated, p) == Get(history, p) + (if p == name then [pt] else [])
    ensures forall p :: p in updated <==> p in history || p == name
    ensures forall p :: p in updated && p != name ==> updated[p] == history[p]
    ensures name in updated && updated[name] != []
  {
    updated := history;
    if name !in updated {
      updated := updated[name := []];
    }
    updated := updated[name := updated[name] + [pt]];
  }

  /**
   * The loop of the history builder: walks the games in the order given and
   * appends, for each game, both players' dates and new ratings to their lists.
   */
  method CollectHistory(ordered: seq<Game>) returns (history: map<string, seq<Point>>)
    ensures forall p :: p in history ==> history[p] != []
    ensures forall p :: Get(history, p) == HistoryOf(p, ordered)
  {
    history := map[];
    for i := 0 to |ordered|
      invariant forall p :: p in history ==> history[p] != []
      invariant forall p :: Get(history, p) == HistoryOf(p, ordered[..i])
    {
      var game := ordered[i];
      ghost var before := history;
      history := AppendPoint(history, game.player1, Point(game.date, game.player1NewRating));
      ghost var middle := history;
      history := AppendPoint(history, game.player2, Point(game.date, game.player2NewRating));
      assert ordered[..i + 1] == ordered[..i] + [game];
      forall p ensures Get(history, p) == HistoryOf(p, ordered[..i + 1]) {
        HistoryGrows(p, Get(before, p), Get(middle, p), Get(history, p), ordered[..i], game);
      }
    }
    assert ordered[..|ordered|] == ordered;
  }

  /** Reordering the games does not change who played. */
  lemma SameGames(s: seq<Game>, t: seq<Game>, p: string)
    requires multiset(s) == multiset(t)
    ensures (exists g :: g in s && Involves(g, p)) <==> (exists g :: g in t && Involves(g, p))
  {
    forall g ensures g in s <==> g in t {
      assert g in s <==> g in multiset(s);
      assert g in t <==> g in multiset(t);
    }
  }

  /**
   * Every player's rating history: the games sorted by date (stably), then
   * collected; a player has a list exactly when some game involves them, and
   * the list is the player's history over the sorted games.
   */
  method RatingHistory(games: seq<Game>) returns (history: map<string, seq<Point>>)
    ensures forall p :: p in history <==> exists g :: g in games && Involves(g, p)
    ensures forall p :: p in history ==> history[p] == HistoryOf(p, SortBy(games, DateKey))
  {
    var sorted := SortBy(games, DateKey);
    history := CollectHistory(sorted);
    forall p ensures p in history <==> exists g :: g in games && Involves(g, p) {
      HistoryNonEmpty(p, sorted);
      SameGames(sorted, games, p);
      assert p in history <==> Get(history, p) != [];
    }
  }
}
