/** Guess words: game/word/word.go. */
module Words {

  datatype LetterStatus = Unknown | Incorrect | Exists | Correct

  /** A nullable timestamp; the zero value is time 0, not valid. Instants of the clock are positive. */
  datatype NullTime = NullTime(time: int, valid: bool)

  const ZERO_TIME := NullTime(0, false)

  datatype Word = Word(word: string, playedAt: NullTime, stats: seq<LetterStatus>) {

    /** Every letter is in place; the empty word and the unscored word never are. */
    predicate IsCorrect() {
      word != "" && stats != [] && forall i :: 0 <= i < |stats| ==> stats[i] == Correct
    }

    function Corrects(): nat { multiset(stats)[Correct] }

    function Existing(): nat { multiset(stats)[Exists] }

    /** The key ranks first by letters in place, then by letters that exist elsewhere. */
    predicate KeyAbove(other: Word) {
      Corrects() > other.Corrects() || (Corrects() == other.Corrects() && Existing() > other.Existing())
    }

    predicate SameKey(other: Word) {
      Corrects() == other.Corrects() && Existing() == other.Existing()
    }

    /** Has at least one letter marked Correct or Exists. */
    predicate Scores() {
      Corrects() > 0 || Existing() > 0
    }

    predicate GreaterThan(other: Word) {
      if Corrects() != other.Corrects() then Corrects() > other.Corrects()
      else if Existing() != other.Existing() then Existing() > other.Existing()
      else if !playedAt.valid then false
      else playedAt.time < other.playedAt.time
    }
  }

  /** What dereferencing a nil best guess yields. */
  const ZERO_WORD := Word("", ZERO_TIME, [])

  function ToUpper(s: string): (r: string)
    ensures |r| == |s|
  {
    seq(|s|, i requires 0 <= i < |s| => if 'a' <= s[i] <= 'z' then s[i] - 'a' + 'A' else s[i])
  }

  function NewWord(text: string): Word {
    Word(ToUpper(text), ZERO_TIME, seq(|text|, _ => Unknown))
  }

  predicate IsUpper(c: char) { 'A' <= c <= 'Z' }

  predicate IsLower(c: char) { 'a' <= c <= 'z' }

  /** The two characters are the same, or the two cases of one ASCII letter. */
  predicate SameLetter(a: char, b: char) {
    || a == b
    || (IsLower(a) && IsUpper(b) && a as int - 'a' as int == b as int - 'A' as int)
    || (IsUpper(a) && IsLower(b) && a as int - 'A' as int == b as int - 'a' as int)
  }

  predicate SameUpToCase(s: string, t: string) {
    |s| == |t| && forall i :: 0 <= i < |s| ==> SameLetter(s[i], t[i])
  }

  /** Two texts make the same word exactly when they differ in the case of letters only. */
  lemma SameWordIff(s: string, t: string)
    ensures NewWord(s).word == NewWord(t).word <==> SameUpToCase(s, t)
    ensures NewWord(s) == NewWord(t) <==> SameUpToCase(s, t)
  {
    if SameUpToCase(s, t) {
      assert forall i :: 0 <= i < |s| ==> SameLetter(s[i], t[i]) ==> ToUpper(s)[i] == ToUpper(t)[i];
      assert ToUpper(s) == ToUpper(t);
    }
    if ToUpper(s) == ToUpper(t) {
      forall i | 0 <= i < |s| ensures SameLetter(s[i], t[i]) { assert ToUpper(s)[i] == ToUpper(t)[i]; }
    }
  }

  /** The word of a text has its letters, all in upper case; making it again changes nothing. */
  lemma WordIsUpper(s: string)
    ensures SameUpToCase(s, NewWord(s).word) && NewWord(NewWord(s).word) == NewWord(s)
    ensures forall i :: 0 <= i < |s| ==> !IsLower(NewWord(s).word[i])
    ensures (forall i :: 0 <= i < |s| ==> IsLower(s[i]) || IsUpper(s[i])) ==>
      forall i :: 0 <= i < |s| ==> IsUpper(NewWord(s).word[i])
  {
    assert forall i :: 0 <= i < |s| ==> SameLetter(s[i], ToUpper(s)[i]);
    SameWordIff(s, NewWord(s).word);
  }

  /** Counts the letters in place and the letters that exist elsewhere. */
  method Group(w: Word) returns (c: nat, a: nat)
    ensures c == w.Corrects() && a == w.Existing()
  {
    c, a := 0, 0;
    for i := 0 to |w.stats|
      invariant c == multiset(w.stats[..i])[Correct] && a == multiset(w.stats[..i])[Exists]
    {
      assert w.stats[..i + 1] == w.stats[..i] + [w.stats[i]];
      match w.stats[i]
      case Correct => c := c + 1;
      case Exists => a := a + 1;
      case _ =>
    }
    assert w.stats[..|w.stats|] == w.stats;
  }

  // ---------- the order ----------

  predicate Incomparable(a: Word, b: Word) {
    !a.GreaterThan(b) && !b.GreaterThan(a)
  }

  /** Timestamps as the server makes them: a clock reading, or the zero value. */
  predicate WellTimed(w: Word) {
    if w.playedAt.valid then w.playedAt.time > 0 else w.playedAt == ZERO_TIME
  }

  lemma GreaterThanIsStrictOrder(a: Word, b: Word, c: Word)
    ensures !a.GreaterThan(a)
    ensures a.GreaterThan(b) && b.GreaterThan(c) ==> a.GreaterThan(c)
    ensures a.GreaterThan(b) ==> !b.GreaterThan(a)
  {
  }

  lemma GreaterThanFollowsKey(a: Word, b: Word)
    ensures a.KeyAbove(b) ==> a.GreaterThan(b)
    ensures a.GreaterThan(b) && !a.SameKey(b) ==> a.KeyAbove(b)
    ensures a.SameKey(b) ==> (a.GreaterThan(b) <==> a.playedAt.valid && a.playedAt.time < b.playedAt.time)
  {
  }

  /** On words with valid times, not being beaten is transitive: the order is a strict weak order. */
  lemma NotBeatenIsTransitive(a: Word, b: Word, c: Word)
    requires a.playedAt.valid && b.playedAt.valid && c.playedAt.valid
    requires !a.GreaterThan(b) && !b.GreaterThan(c)
    ensures !a.GreaterThan(c)
  {
  }

  predicate Mixes(s: set<Word>) {
    exists a, b, c ::
      a in s && b in s && c in s && !b.playedAt.valid && a.playedAt.valid && c.playedAt.valid
      && a.SameKey(b) && b.SameKey(c) && a.playedAt.time != c.playedAt.time
  }

  predicate IncomparabilityIsTransitiveOn(s: set<Word>) {
    forall a, b, c :: a in s && b in s && c in s && Incomparable(a, b) && Incomparable(b, c) ==> Incomparable(a, c)
  }

  /** Exactly when the order is a strict weak order on a set of words: no word without a time
      shares its key with two words played at different times. */
  lemma StrictWeakOrderIff(s: set<Word>)
    requires forall w :: w in s ==> WellTimed(w)
    ensures IncomparabilityIsTransitiveOn(s) <==> !Mixes(s)
  {
    if Mixes(s) {
      var a, b, c :| a in s && b in s && c in s && !b.playedAt.valid && a.playedAt.valid && c.playedAt.valid
        && a.SameKey(b) && b.SameKey(c) && a.playedAt.time != c.playedAt.time;
      assert Incomparable(a, b) && Incomparable(b, c) && !Incomparable(a, c);
    }
    if !IncomparabilityIsTransitiveOn(s) {
      var a, b, c :| a in s && b in s && c in s && Incomparable(a, b) && Incomparable(b, c) && !Incomparable(a, c);
      assert a.SameKey(b) && b.SameKey(c);
      assert a.playedAt.valid && c.playedAt.valid && !b.playedAt.valid;
    }
  }

  /** Two all-Incorrect guesses beside the zero word, which a session without guesses has, are such a set. */
  lemma UnplayedSessionBreaksWeakOrder()
    ensures exists early: Word, late: Word ::
      && WellTimed(early) && WellTimed(late)
      && early.stats == late.stats == [Incorrect, Incorrect, Incorrect, Incorrect, Incorrect]
      && Incomparable(early, ZERO_WORD) && Incomparable(ZERO_WORD, late) && early.GreaterThan(late)
  {
    var none := [Incorrect, Incorrect, Incorrect, Incorrect, Incorrect];
    var early, late := Word("QUICK", NullTime(1, true), none), Word("JUMBO", NullTime(2, true), none);
    assert Incomparable(early, ZERO_WORD) && Incomparable(ZERO_WORD, late) && early.GreaterThan(late);
  }
}
