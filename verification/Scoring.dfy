/** Scoring a guess against the secret: `Check` in game/word/word.go. */
module Scoring {
  import opened Words

  /** How many of the first `n` positions hold `c` in both words. */
  function Hits(guess: string, secret: string, n: nat, c: char): nat
    requires n <= |guess| == |secret|
  {
    if n == 0 then 0
    else Hits(guess, secret, n - 1, c) + if guess[n - 1] == c && secret[n - 1] == c then 1 else 0
  }

  /** How many of the first `n` positions hold `c` in the guess but not in the secret. */
  function Misses(guess: string, secret: string, n: nat, c: char): nat
    requires n <= |guess| == |secret|
  {
    if n == 0 then 0
    else Misses(guess, secret, n - 1, c) + if guess[n - 1] == c && secret[n - 1] != c then 1 else 0
  }

  /** Copies of `c` in the secret that no exact match has used up. */
  function Spare(guess: string, secret: string, c: char): int
    requires |guess| == |secret|
  {
    multiset(secret)[c] - Hits(guess, secret, |guess|, c)
  }

  /** Leftmost first: a misplaced letter exists while fewer misses of that letter precede it
      than the secret has spare copies. */
  function StatusAt(guess: string, secret: string, i: nat): LetterStatus
    requires i < |guess| == |secret|
  {
    if guess[i] == secret[i] then Correct
    else if Misses(guess, secret, i, guess[i]) < Spare(guess, secret, guess[i]) then Exists
    else Incorrect
  }

  function Score(guess: string, secret: string): seq<LetterStatus>
    requires |guess| == |secret|
  {
    seq(|guess|, i requires 0 <= i < |guess| => StatusAt(guess, secret, i))
  }

  function Min(a: int, b: int): int { if a < b then a else b }

  function Max(a: int, b: int): int { if a < b then b else a }

  /** `w` after Check: only a guess of the secret's length gets new statuses. */
  function Checked(w: Word, secret: Word): Word {
    if |w.word| == |secret.word| then w.(stats := Score(w.word, secret.word)) else w
  }

  lemma PrefixStep<T>(s: seq<T>, n: nat)
    requires n < |s|
    ensures multiset(s[..n + 1]) == multiset(s[..n]) + multiset{s[n]}
  {
    assert s[..n + 1] == s[..n] + [s[n]];
  }

  /** Exact matches of a letter never exceed its copies in either word, nor hits and misses its copies in the guess. */
  lemma {:induction false} HitsAndMisses(guess: string, secret: string, n: nat, c: char)
    requires n <= |guess| == |secret|
    ensures Hits(guess, secret, n, c) <= multiset(secret[..n])[c]
    ensures Hits(guess, secret, n, c) + Misses(guess, secret, n, c) == multiset(guess[..n])[c]
  {
    if n > 0 {
      HitsAndMisses(guess, secret, n - 1, c);
      PrefixStep(guess, n - 1);
      PrefixStep(secret, n - 1);
    }
  }

  lemma WholeWord(guess: string, secret: string, c: char)
    requires |guess| == |secret|
    ensures Spare(guess, secret, c) >= 0
    ensures Hits(guess, secret, |guess|, c) + Misses(guess, secret, |guess|, c) == multiset(guess)[c]
  {
    HitsAndMisses(guess, secret, |guess|, c);
    assert guess[..|guess|] == guess && secret[..|secret|] == secret;
  }

  /** The dictionary of unused letters before position `n` of the second pass. */
  ghost function LettersLeft(guess: string, secret: string, n: nat): map<char, int>
    requires n <= |guess| == |secret|
  {
    map c | c in secret :: Max(0, Spare(guess, secret, c) - Misses(guess, secret, n, c))
  }

  /** Two passes over a letter dictionary fill in the statuses; they meet `Score`, the one fair marking. */
  method Check(w: Word, correctWord: Word) returns (checked: Word, status: seq<LetterStatus>)
    ensures |w.word| == |correctWord.word| ==>
      status == Score(w.word, correctWord.word) && checked == w.(stats := status)
    ensures |w.word| == |correctWord.word| ==> IsFair(w.word, correctWord.word, status)
    ensures |w.word| != |correctWord.word| ==>
      status == seq(|w.word|, _ => Incorrect) && checked == w
  {
    var instance, correct := w.word, correctWord.word;
    var wordStatus := new LetterStatus[|instance|];
    for key := 0 to |instance|
      invariant forall k :: 0 <= k < key ==> wordStatus[k] == Incorrect
    {
      wordStatus[key] := Incorrect;
    }
    if |instance| != |correct| {
      return w, wordStatus[..];
    }
    var dict := CountLetters(correct);
    dict := MarkCorrect(instance, correct, wordStatus, dict);
    MarkExisting(instance, correct, wordStatus, dict);
    status := wordStatus[..];
    ScoreIsFair(instance, correct);
    checked := w.(stats := status);
  }

  method CountLetters(correct: string) returns (dict: map<char, int>)
    ensures forall c :: c in dict <==> c in correct
    ensures forall c :: c in dict ==> dict[c] == multiset(correct)[c]
  {
    dict := map[];
    for k := 0 to |correct|
      invariant forall c :: c in dict <==> c in correct[..k]
      invariant forall c :: c in dict ==> dict[c] == multiset(correct[..k])[c]
    {
      PrefixStep(correct, k);
      var v := correct[k];
      dict := dict[v := (if v in dict then dict[v] else 0) + 1];
      assert correct[..k + 1] == correct[..k] + [v];
    }
    assert correct[..|correct|] == correct;
  }

  /** First pass: exact matches, each using up one copy of its letter. */
  method MarkCorrect(guess: string, secret: string, wordStatus: array<LetterStatus>, letters: map<char, int>)
    returns (dict: map<char, int>)
    requires wordStatus.Length == |guess| == |secret|
    requires forall c :: c in letters <==> c in secret
    requires forall c :: c in letters ==> letters[c] == multiset(secret)[c]
    requires forall k :: 0 <= k < |guess| ==> wordStatus[k] == Incorrect
    modifies wordStatus
    ensures dict == LettersLeft(guess, secret, 0)
    ensures forall k :: 0 <= k < |guess| ==> wordStatus[k] == if guess[k] == secret[k] then Correct else Incorrect
  {
    dict := letters;
    for i := 0 to |guess|
      invariant forall c :: c in dict <==> c in secret
      invariant forall c :: c in dict ==> dict[c] == multiset(secret)[c] - Hits(guess, secret, i, c)
      invariant forall k :: 0 <= k < |guess| ==>
        wordStatus[k] == if k < i && guess[k] == secret[k] then Correct else Incorrect
    {
      if guess[i] == secret[i] {
        wordStatus[i] := Correct;
        dict := dict[guess[i] := dict[guess[i]] - 1];
      }
    }
    forall c ensures Spare(guess, secret, c) >= 0 { WholeWord(guess, secret, c); }
  }

  /** One step of the second pass: what the dictionary says about position `i`, and the dictionary after it. */
  lemma SecondPassStep(dict: map<char, int>, guess: string, secret: string, i: nat)
    requires i < |guess| == |secret|
    requires dict == LettersLeft(guess, secret, i)
    ensures guess[i] == secret[i] ==> LettersLeft(guess, secret, i + 1) == dict
    ensures guess[i] != secret[i] && guess[i] in dict && dict[guess[i]] > 0 ==>
      StatusAt(guess, secret, i) == Exists
      && LettersLeft(guess, secret, i + 1) == dict[guess[i] := dict[guess[i]] - 1]
    ensures guess[i] != secret[i] && !(guess[i] in dict && dict[guess[i]] > 0) ==>
      StatusAt(guess, secret, i) == Incorrect && LettersLeft(guess, secret, i + 1) == dict
  {
    var v := guess[i];
    HitsAndMisses(guess, secret, |guess|, v);
    assert secret[..|secret|] == secret;
    assert v !in secret ==> multiset(secret)[v] == 0;
    assert forall c :: c != v ==> Misses(guess, secret, i + 1, c) == Misses(guess, secret, i, c);
  }

  /** Second pass: misplaced letters, leftmost first, while copies are left. */
  method MarkExisting(guess: string, secret: string, wordStatus: array<LetterStatus>, letters: map<char, int>)
    requires wordStatus.Length == |guess| == |secret|
    requires letters == LettersLeft(guess, secret, 0)
    requires forall k :: 0 <= k < |guess| ==> wordStatus[k] == if guess[k] == secret[k] then Correct else Incorrect
    modifies wordStatus
    ensures wordStatus[..] == Score(guess, secret)
  {
    var dict := letters;
    for i := 0 to |guess|
      invariant dict == LettersLeft(guess, secret, i)
      invariant forall k :: 0 <= k < i ==> wordStatus[k] == StatusAt(guess, secret, k)
      invariant forall k :: i <= k < |guess| ==> wordStatus[k] == if guess[k] == secret[k] then Correct else Incorrect
    {
      dict := MarkAt(guess, secret, wordStatus, dict, i);
    }
  }

  /** One turn of the second pass. */
  method MarkAt(guess: string, secret: string, wordStatus: array<LetterStatus>, letters: map<char, int>, i: nat)
    returns (dict: map<char, int>)
    requires i < wordStatus.Length == |guess| == |secret|
    requires letters == LettersLeft(guess, secret, i)
    requires wordStatus[i] == if guess[i] == secret[i] then Correct else Incorrect
    modifies wordStatus
    ensures dict == LettersLeft(guess, secret, i + 1)
    ensures wordStatus[i] == StatusAt(guess, secret, i)
    ensures forall k :: 0 <= k < wordStatus.Length && k != i ==> wordStatus[k] == old(wordStatus[k])
  {
    dict := letters;
    SecondPassStep(dict, guess, secret, i);
    var value := guess[i];
    if wordStatus[i] == Correct { return; }
    if value in dict && dict[value] > 0 {
      wordStatus[i] := Exists;
      dict := dict[value := dict[value] - 1];
    }
  }

  // ---------- what the marks mean ----------

  predicate Marked(s: LetterStatus) { s == Correct || s == Exists }

  /** The letters of the first `n` positions marked Correct or Exists. */
  ghost function MarkedLetters(guess: string, secret: string, n: nat): multiset<char>
    requires n <= |guess| == |secret|
  {
    if n == 0 then multiset{}
    else
      var before := MarkedLetters(guess, secret, n - 1);
      if Marked(StatusAt(guess, secret, n - 1)) then before + multiset{guess[n - 1]} else before
  }

  lemma {:induction false} MarksOfLetter(guess: string, secret: string, n: nat, c: char)
    requires n <= |guess| == |secret|
    ensures MarkedLetters(guess, secret, n)[c]
         == Hits(guess, secret, n, c) + Min(Misses(guess, secret, n, c), Spare(guess, secret, c))
  {
    WholeWord(guess, secret, c);
    if n > 0 {
      MarksOfLetter(guess, secret, n - 1, c);
    }
  }

  lemma {:induction false} MarksAreCounted(guess: string, secret: string, n: nat)
    requires n <= |guess| == |secret|
    ensures |MarkedLetters(guess, secret, n)|
         == multiset(Score(guess, secret)[..n])[Correct] + multiset(Score(guess, secret)[..n])[Exists]
  {
    if n > 0 {
      MarksAreCounted(guess, secret, n - 1);
      PrefixStep(Score(guess, secret), n - 1);
    }
  }

  /** Each letter is marked as often as both words hold it: the marked letters are the multiset intersection. */
  lemma MarksAreTheIntersection(guess: string, secret: string)
    requires |guess| == |secret|
    ensures MarkedLetters(guess, secret, |guess|) == multiset(guess) * multiset(secret)
    ensures forall c :: MarkedLetters(guess, secret, |guess|)[c] == Min(multiset(guess)[c], multiset(secret)[c])
  {
    forall c ensures MarkedLetters(guess, secret, |guess|)[c] == Min(multiset(guess)[c], multiset(secret)[c]) {
      MarksOfLetter(guess, secret, |guess|, c);
      WholeWord(guess, secret, c);
    }
  }

  lemma TotalMarks(w: Word, secret: Word)
    requires |w.word| == |secret.word|
    ensures Checked(w, secret).Corrects() + Checked(w, secret).Existing() == |multiset(w.word) * multiset(secret.word)|
  {
    var s := Score(w.word, secret.word);
    MarksAreTheIntersection(w.word, secret.word);
    MarksAreCounted(w.word, secret.word, |w.word|);
    assert s[..|w.word|] == s;
  }

  /** Swapping guess and secret changes neither count. */
  lemma ScoringIsSymmetric(w: Word, secret: Word)
    requires |w.word| == |secret.word|
    ensures Checked(w, secret).SameKey(Checked(secret, w))
  {
    TotalMarks(w, secret);
    TotalMarks(secret, w);
    assert multiset(w.word) * multiset(secret.word) == multiset(secret.word) * multiset(w.word);
    var s, t := Score(w.word, secret.word), Score(secret.word, w.word);
    CorrectsAgree(s, t, |s|);
    assert s[..|s|] == s && t[..|s|] == t;
  }

  lemma {:induction false} CorrectsAgree(s: seq<LetterStatus>, t: seq<LetterStatus>, n: nat)
    requires n <= |s| == |t|
    requires forall i :: 0 <= i < |s| ==> (s[i] == Correct <==> t[i] == Correct)
    ensures multiset(s[..n])[Correct] == multiset(t[..n])[Correct]
  {
    if n > 0 {
      CorrectsAgree(s, t, n - 1);
      PrefixStep(s, n - 1);
      PrefixStep(t, n - 1);
    }
  }

  lemma {:induction false} AllMatchedBut(guess: string, secret: string, k: nat, n: nat, c: char)
    requires n <= |guess| == |secret| && k < |guess|
    requires forall j :: 0 <= j < |guess| && j != k ==> guess[j] == secret[j]
    requires secret[k] != c
    ensures multiset(secret[..n])[c] == Hits(guess, secret, n, c)
  {
    if n > 0 {
      AllMatchedBut(guess, secret, k, n - 1, c);
      PrefixStep(secret, n - 1);
    }
  }

  /** With every other letter in place, the last one is in place or Incorrect, never Exists. */
  lemma OneLetterOffIsNeverExists(guess: string, secret: string, k: nat)
    requires |guess| == |secret| && k < |guess|
    requires forall j :: 0 <= j < |guess| && j != k ==> StatusAt(guess, secret, j) == Correct
    ensures StatusAt(guess, secret, k) != Exists
  {
    if guess[k] != secret[k] {
      forall j | 0 <= j < |guess| && j != k ensures guess[j] == secret[j] {
        assert StatusAt(guess, secret, j) == Correct;
      }
      AllMatchedBut(guess, secret, k, |guess|, guess[k]);
      assert secret[..|secret|] == secret;
    }
  }

  // ---------- the marks are the only fair ones ----------

  /** Where the two words have the same letter. */
  function Matching(guess: string, secret: string): set<nat>
    requires |guess| == |secret|
  {
    set i: nat | i < |guess| && guess[i] == secret[i]
  }

  /** The positions of a letter among the first `n` that are marked Correct or Exists. */
  function MarkedAt(guess: string, status: seq<LetterStatus>, n: nat, c: char): set<nat>
    requires n <= |guess| == |status|
  {
    set i: nat | i < n && guess[i] == c && Marked(status[i])
  }

  /** A letter in place is Correct and nothing else is; of a letter's misplaced copies the leftmost are Exists; and each
      letter has as many marks as copies in both words. */
  predicate IsFair(guess: string, secret: string, status: seq<LetterStatus>) {
    && |status| == |guess| == |secret|
    && (forall i :: 0 <= i < |guess| ==> (status[i] == Correct <==> guess[i] == secret[i]) && status[i] != Unknown)
    && (forall i, j :: 0 <= i < j < |guess| && guess[i] == guess[j] && status[i] == Incorrect ==> status[j] != Exists)
    && (forall c :: |MarkedAt(guess, status, |guess|, c)| == Min(multiset(guess)[c], multiset(secret)[c]))
  }

  lemma OneMoreMarked(guess: string, status: seq<LetterStatus>, n: nat, c: char)
    requires n < |guess| == |status|
    ensures |MarkedAt(guess, status, n + 1, c)|
         == |MarkedAt(guess, status, n, c)| + if guess[n] == c && Marked(status[n]) then 1 else 0
  {
    var before := MarkedAt(guess, status, n, c);
    assert MarkedAt(guess, status, n + 1, c) == if guess[n] == c && Marked(status[n]) then before + {n} else before;
  }

  lemma {:induction false} MarkedAtIsCounted(guess: string, secret: string, n: nat, c: char)
    requires n <= |guess| == |secret|
    ensures |MarkedAt(guess, Score(guess, secret), n, c)| == MarkedLetters(guess, secret, n)[c]
  {
    if n > 0 {
      MarkedAtIsCounted(guess, secret, n - 1, c);
      OneMoreMarked(guess, Score(guess, secret), n - 1, c);
    } else {
      assert MarkedAt(guess, Score(guess, secret), n, c) == {};
    }
  }

  lemma {:induction false} MissesGrow(guess: string, secret: string, i: nat, j: nat, c: char)
    requires i <= j <= |guess| == |secret|
    ensures Misses(guess, secret, i, c) <= Misses(guess, secret, j, c)
  {
    if i < j { MissesGrow(guess, secret, i, j - 1, c); }
  }

  lemma ScoreIsFair(guess: string, secret: string)
    requires |guess| == |secret|
    ensures IsFair(guess, secret, Score(guess, secret))
  {
    MarksAreTheIntersection(guess, secret);
    forall c ensures |MarkedAt(guess, Score(guess, secret), |guess|, c)| == Min(multiset(guess)[c], multiset(secret)[c]) {
      MarkedAtIsCounted(guess, secret, |guess|, c);
    }
    forall i, j | 0 <= i < j < |guess| && guess[i] == guess[j] && StatusAt(guess, secret, i) == Incorrect
      ensures StatusAt(guess, secret, j) != Exists
    {
      MissesGrow(guess, secret, i, j, guess[i]);
    }
  }

  /** Two fair markings cannot differ: where one says Exists and the other Incorrect, the other has fewer marks. */
  lemma FairIsUnique(guess: string, secret: string, a: seq<LetterStatus>, b: seq<LetterStatus>, i: nat)
    requires IsFair(guess, secret, a) && IsFair(guess, secret, b) && i < |guess|
    ensures !(a[i] == Exists && b[i] == Incorrect)
  {
    if a[i] == Exists && b[i] == Incorrect {
      var c := guess[i];
      var ma, mb := MarkedAt(guess, a, |guess|, c), MarkedAt(guess, b, |guess|, c);
      forall j | j in mb ensures j in ma {
        if b[j] == Exists { assert j < i; }
      }
      assert mb <= ma && i in ma && i !in mb;
      SmallerSet(mb, ma, i);
    }
  }

  lemma SmallerSet(a: set<nat>, b: set<nat>, x: nat)
    requires a <= b && x in b && x !in a
    ensures |a| < |b|
  {
    assert b == a + (b - a) && x in b - a;
  }

  /** What Check computes is the one fair marking. */
  lemma ScoreIsTheFairOne(guess: string, secret: string, status: seq<LetterStatus>)
    requires |guess| == |secret|
    ensures IsFair(guess, secret, status) <==> status == Score(guess, secret)
  {
    ScoreIsFair(guess, secret);
    if IsFair(guess, secret, status) {
      forall i | 0 <= i < |guess| ensures status[i] == Score(guess, secret)[i] {
        FairIsUnique(guess, secret, status, Score(guess, secret), i);
        FairIsUnique(guess, secret, Score(guess, secret), status, i);
      }
    }
  }

  /** The positions among the first `n` that are marked Correct. */
  function CorrectAt(s: seq<LetterStatus>, n: nat): set<nat>
    requires n <= |s|
  {
    set i: nat | i < n && s[i] == Correct
  }

  lemma OneMoreCorrect(s: seq<LetterStatus>, n: nat)
    requires n < |s|
    ensures |CorrectAt(s, n + 1)| == |CorrectAt(s, n)| + if s[n] == Correct then 1 else 0
  {
    assert CorrectAt(s, n + 1) == if s[n] == Correct then CorrectAt(s, n) + {n} else CorrectAt(s, n);
  }

  lemma {:induction false} CorrectsUpTo(s: seq<LetterStatus>, n: nat)
    requires n <= |s|
    ensures |CorrectAt(s, n)| == multiset(s[..n])[Correct]
  {
    if n > 0 {
      CorrectsUpTo(s, n - 1);
      PrefixStep(s, n - 1);
      OneMoreCorrect(s, n - 1);
    }
  }

  /** The first part of the key is the number of letters in place. */
  lemma CorrectsAreTheMatches(w: Word, secret: Word)
    requires |w.word| == |secret.word|
    ensures var s := Checked(w, secret).stats;
      |s| == |w.word| && forall i :: 0 <= i < |s| ==> (s[i] == Correct <==> w.word[i] == secret.word[i])
    ensures Checked(w, secret).Corrects() == |Matching(w.word, secret.word)|
  {
    var s := Checked(w, secret).stats;
    CorrectsUpTo(s, |s|);
    assert s[..|s|] == s;
    assert CorrectAt(s, |s|) == Matching(w.word, secret.word);
  }

  /** All letters are in place exactly when the guess is the secret. */
  lemma CheckedIsCorrectIff(w: Word, secret: Word)
    requires |w.word| == |secret.word| && secret.word != ""
    ensures Checked(w, secret).IsCorrect() <==> w.word == secret.word
    ensures Checked(w, secret).IsCorrect() <==> Checked(w, secret).Corrects() == |secret.word|
  {
    var s := Checked(w, secret).stats;
    if Checked(w, secret).IsCorrect() {
      forall i | 0 <= i < |w.word| ensures w.word[i] == secret.word[i] {
        assert s[i] == Correct;
      }
    }
    AllCorrectIff(s);
  }

  lemma {:induction false} AllCorrectIff(s: seq<LetterStatus>)
    ensures multiset(s)[Correct] <= |s|
    ensures multiset(s)[Correct] == |s| <==> forall i :: 0 <= i < |s| ==> s[i] == Correct
  {
    if |s| > 0 {
      var n := |s| - 1;
      AllCorrectIff(s[..n]);
      PrefixStep(s, n);
      assert s[..n + 1] == s;
      if multiset(s)[Correct] == |s| {
        assert s[n] == Correct;
        forall i | 0 <= i < |s| ensures s[i] == Correct {
          if i < n { assert s[..n][i] == Correct; }
        }
      }
    }
  }
}
