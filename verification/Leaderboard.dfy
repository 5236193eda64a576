/** The leaderboard as a slice of best guesses: what bubbling one entry up does, and how it relates to a full sort. */
module Leaderboard {
  import opened Collections
  import opened Words

  /** The best guess of each player on the board, top first. */
  function Along(best: map<string, Word>, ranks: seq<string>): (ws: seq<Word>)
    requires forall u :: u in ranks ==> u in best
    ensures |ws| == |ranks|
  {
    seq(|ranks|, i requires 0 <= i < |ranks| => best[ranks[i]])
  }

  /** No entry that scores is ranked below one it beats. */
  predicate Ordered(ws: seq<Word>) {
    forall i, j :: 0 <= i < j < |ws| && ws[j].Scores() ==> !ws[j].GreaterThan(ws[i])
  }

  /** Best guesses as sessions hold them: scoring words carry a valid time. */
  predicate Timed(ws: seq<Word>) {
    forall i :: 0 <= i < |ws| ==> (ws[i].Scores() ==> ws[i].playedAt.valid)
  }

  /** Where the entry at `i` stops when it is swapped upwards past every entry it beats. */
  function Climb(ws: seq<Word>, i: nat): (p: nat)
    requires i < |ws|
    ensures p <= i
  {
    ClimbAs(ws, ws[i], i)
  }

  /** Where `w`, standing at `i`, stops. */
  function ClimbAs(ws: seq<Word>, w: Word, i: nat): (p: nat)
    requires i < |ws|
    ensures p <= i
    ensures forall k :: p <= k < i ==> w.GreaterThan(ws[k])
    ensures p > 0 ==> !w.GreaterThan(ws[p - 1])
  {
    if i > 0 && w.GreaterThan(ws[i - 1]) then ClimbAs(ws, w, i - 1) else i
  }

  /** On the way up, the entry beats the one above it exactly while it has not reached its place. */
  lemma ClimbStops(ws: seq<Word>, index: nat, i: nat)
    requires index < |ws| && Climb(ws, index) <= i <= index && 0 < i
    ensures ws[index].GreaterThan(ws[i - 1]) <==> Climb(ws, index) < i
  {
  }

  lemma ClimbBeats(ws: seq<Word>, i: nat, k: nat)
    requires i < |ws| && Climb(ws, i) <= k < i
    ensures ws[i].GreaterThan(ws[k])
  {
  }

  /** An ordered board ranks the keys without increase from top to bottom. */
  lemma KeysDescend(ws: seq<Word>, i: nat, j: nat)
    requires Ordered(ws) && i < j < |ws|
    ensures !ws[j].KeyAbove(ws[i])
  {
    if ws[j].KeyAbove(ws[i]) {
      GreaterThanFollowsKey(ws[j], ws[i]);
    }
  }

  /** On an ordered board an entry that scores has only scoring entries above it. */
  lemma ScoringAbove(ws: seq<Word>, i: nat, j: nat)
    requires Ordered(ws) && i < j < |ws| && ws[j].Scores()
    ensures ws[i].Scores()
  {
    KeysDescend(ws, i, j);
  }

  /** A best guess only ever changes to a word that beats it, or from the zero word to any first guess. */
  predicate Improves(after: Word, before: Word) {
    after == before || after.GreaterThan(before) || before == ZERO_WORD
  }

  /** Replacing one best guess by a better one and bubbling that entry up keeps an ordered board ordered. */
  lemma ClimbKeepsOrder(before: seq<Word>, i: nat, w: Word)
    requires i < |before| && Ordered(before) && Timed(before)
    requires Improves(w, before[i]) && (w.Scores() ==> w.playedAt.valid)
    ensures var ws := before[i := w];
      Ordered(Rotate(ws, Climb(ws, i), i)) && Timed(Rotate(ws, Climb(ws, i), i))
  {
    var ws := before[i := w];
    var r := Rotate(ws, Climb(ws, i), i);
    forall a, b | 0 <= a < b < |r| && r[b].Scores() ensures !r[b].GreaterThan(r[a]) {
      PairStaysOrdered(before, ws, i, a, b);
    }
  }

  lemma PairStaysOrdered(before: seq<Word>, ws: seq<Word>, i: nat, a: nat, b: nat)
    requires i < |before| == |ws| && Ordered(before) && Timed(before)
    requires ws == before[i := ws[i]]
    requires Improves(ws[i], before[i]) && (ws[i].Scores() ==> ws[i].playedAt.valid)
    requires a < b < |ws| && Rotate(ws, Climb(ws, i), i)[b].Scores()
    ensures !Rotate(ws, Climb(ws, i), i)[b].GreaterThan(Rotate(ws, Climb(ws, i), i)[a])
  {
    var p := Climb(ws, i);
    if b == p {
      AboveTheStop(ws, before, i, p, a);
    } else {
      var y := if p < b <= i then b - 1 else b;
      if a == p {
        BelowTheStop(ws, before, i, p, y);
      } else {
        var x := if p < a <= i then a - 1 else a;
        assert !before[y].GreaterThan(before[x]);
      }
    }
  }

  lemma AboveTheStop(ws: seq<Word>, before: seq<Word>, i: nat, p: nat, a: nat)
    requires i < |before| && Ordered(before) && Timed(before)
    requires |ws| == |before| && ws == before[i := ws[i]] && p == Climb(ws, i) && a < p
    requires ws[i].Scores() && ws[i].playedAt.valid
    ensures !ws[i].GreaterThan(ws[a])
  {
    if a < p - 1 {
      GreaterThanFollowsKey(ws[i], ws[p - 1]);
      ScoringAbove(before, a, p - 1);
      NotBeatenIsTransitive(ws[i], ws[p - 1], ws[a]);
    }
  }

  lemma BelowTheStop(ws: seq<Word>, before: seq<Word>, i: nat, p: nat, y: nat)
    requires i < |before| && Ordered(before)
    requires |ws| == |before| && ws == before[i := ws[i]] && p == Climb(ws, i) && p <= y < |ws| && y != i
    requires Improves(ws[i], before[i]) && ws[y].Scores()
    ensures !ws[y].GreaterThan(ws[i])
  {
    if y < i {
      GreaterThanIsStrictOrder(ws[i], ws[y], ws[i]);
    } else {
      assert !before[y].GreaterThan(before[i]);
      if before[i] == ZERO_WORD {
        ScoringAbove(before, i, y);
      } else {
        GreaterThanIsStrictOrder(ws[y], ws[i], before[i]);
      }
    }
  }

  /** Bubbling one more entry up from below an ordered slice keeps it ordered. */
  lemma ClimbInsertsInOrder(ws: seq<Word>, n: nat)
    requires |ws| == n + 1 && Timed(ws) && Ordered(ws[..n])
    ensures Ordered(Rotate(ws, Climb(ws, n), n))
  {
    var before := ws[n := ZERO_WORD];
    forall i, j | 0 <= i < j < |before| && before[j].Scores() ensures !before[j].GreaterThan(before[i]) {
      assert before[i] == ws[..n][i] && before[j] == ws[..n][j];
    }
    assert ws == before[n := ws[n]];
    ClimbKeepsOrder(before, n, ws[n]);
  }

  // ---------- the order determines the ranks ----------

  /** No two players' scoring best guesses share key and time. */
  predicate DistinctTimes(best: map<string, Word>) {
    forall u, v :: u in best && v in best && u != v && best[u].Scores() && best[u].SameKey(best[v])
      ==> best[u].playedAt.time != best[v].playedAt.time
  }

  predicate ScoringTimed(best: map<string, Word>) {
    forall u :: u in best && best[u].Scores() ==> best[u].playedAt.valid
  }

  function Ahead(best: map<string, Word>, u: string): set<string>
    requires u in best
  {
    set v | v in best && best[v].GreaterThan(best[u])
  }

  /** On an ordered board of all players, whoever stands above a scoring player is exactly whoever beats them,
      so their rank is the number of players that beat them. */
  lemma RankIsPlayersAhead(best: map<string, Word>, ranks: seq<string>, i: nat)
    requires IsOrdering(ranks, best.Keys) && Ordered(Along(best, ranks))
    requires ScoringTimed(best) && DistinctTimes(best)
    requires i < |ranks| && best[ranks[i]].Scores()
    ensures Elements(ranks[..i]) == Ahead(best, ranks[i])
    ensures |Ahead(best, ranks[i])| == i
  {
    var ws := Along(best, ranks);
    var u := ranks[i];
    forall v | v in ranks[..i] ensures v in Ahead(best, u) {
      var k :| 0 <= k < i && ranks[k] == v;
      assert !ws[i].GreaterThan(ws[k]);
      ScoringAbove(ws, k, i);
      assert u != v;
      assert best[v] == ws[k] && best[u] == ws[i];
    }
    forall v | v in Ahead(best, u) ensures v in ranks[..i] {
      assert v in Elements(ranks);
      var k :| 0 <= k < |ranks| && ranks[k] == v;
      assert best[v] == ws[k] && best[u] == ws[i];
      GreaterThanIsStrictOrder(best[u], best[u], best[u]);
      assert k < i && v == ranks[..i][k];
    }
    ElementsSize(ranks[..i]);
  }

  /** How many players score: the length of the ranked prefix. */
  function ScoringPlayers(best: map<string, Word>): set<string> {
    set u | u in best && best[u].Scores()
  }

  /** The entries that score come first. */
  lemma ScoringPrefix(best: map<string, Word>, ranks: seq<string>)
    requires IsOrdering(ranks, best.Keys) && Ordered(Along(best, ranks))
    ensures |ScoringPlayers(best)| <= |ranks|
    ensures Elements(ranks[..|ScoringPlayers(best)|]) == ScoringPlayers(best)
  {
    var n := FirstNotScoring(best, ranks);
    forall u ensures u in ranks[..n] <==> u in ScoringPlayers(best) {
      if u in ScoringPlayers(best) {
        assert u in Elements(ranks);
        var k :| 0 <= k < |ranks| && ranks[k] == u;
        assert ranks[k] == ranks[..n][k];
      }
    }
    assert Elements(ranks[..n]) == ScoringPlayers(best);
    ElementsSize(ranks[..n]);
  }

  lemma FirstNotScoring(best: map<string, Word>, ranks: seq<string>) returns (n: nat)
    requires IsOrdering(ranks, best.Keys) && Ordered(Along(best, ranks))
    ensures n <= |ranks|
    ensures forall i :: 0 <= i < |ranks| ==> (best[ranks[i]].Scores() <==> i < n)
  {
    var ws := Along(best, ranks);
    n := 0;
    while n < |ranks| && ws[n].Scores()
      invariant n <= |ranks|
      invariant forall i :: 0 <= i < n ==> ws[i].Scores()
    {
      n := n + 1;
    }
    forall i | n <= i < |ranks| ensures !ws[i].Scores() {
      if i > n && ws[i].Scores() { ScoringAbove(ws, n, i); }
    }
    forall i | 0 <= i < |ranks| ensures best[ranks[i]] == ws[i] {}
  }

  /** Two ordered boards over the same best guesses agree on every entry that scores:
      the bubbled board, the fully sorted one and any recovered one. */
  lemma OrderedBoardsAgree(best: map<string, Word>, r1: seq<string>, r2: seq<string>)
    requires IsOrdering(r1, best.Keys) && Ordered(Along(best, r1))
    requires IsOrdering(r2, best.Keys) && Ordered(Along(best, r2))
    requires ScoringTimed(best) && DistinctTimes(best)
    ensures var n := |ScoringPlayers(best)|; n <= |r1| && n <= |r2| && r1[..n] == r2[..n]
  {
    var n := |ScoringPlayers(best)|;
    ScoringPrefix(best, r1);
    ScoringPrefix(best, r2);
    forall i | 0 <= i < n ensures r1[i] == r2[i] {
      var u := r1[i];
      assert u in r1[..n];
      assert u in Elements(r1[..n]);
      assert u in Elements(r2[..n]);
      var k :| 0 <= k < n && r2[..n][k] == u;
      RankIsPlayersAhead(best, r1, i);
      RankIsPlayersAhead(best, r2, k);
    }
  }
}
