/** The high-score table of core/game.cpp:597-672: at most ten named scores kept in
    descending order of score, the rank a new score would take, and the insertion that
    keeps the table in shape. */
module HighScores {

  datatype HighScore = HighScore(name: string, score: int)

  /** Game::MAX_HIGH_SCORES (core/game.h:62). */
  const MAX_HIGH_SCORES: nat := 10

  /** The name stored for a player who entered none. */
  const ANON: string := "ANON"

  /** Scores never increase from one entry to the next. */
  predicate Descending(list: seq<HighScore>)
  {
    forall i, j :: 0 <= i < j < |list| ==> list[i].score >= list[j].score
  }

  /** The shape every table keeps: descending and at most ten entries. */
  predicate WellFormed(list: seq<HighScore>)
  {
    Descending(list) && |list| <= MAX_HIGH_SCORES
  }

  /** Game::isHighScore (core/game.cpp:640-642): there is a free slot, or the score beats
      the last entry. */
  predicate IsHighScore(list: seq<HighScore>, score: int)
  {
    |list| < MAX_HIGH_SCORES || score > list[|list| - 1].score
  }

  /** The position of the first entry whose score `score` beats, or |list| if none. */
  function FirstBeaten(list: seq<HighScore>, score: int): (i: nat)
    ensures i <= |list|
    ensures forall k :: 0 <= k < i ==> score <= list[k].score
    ensures i < |list| ==> score > list[i].score
  {
    if |list| == 0 then 0
    else if score > list[0].score then 0
    else 1 + FirstBeaten(list[1..], score)
  }

  /** Game::getHighScoreIndex (core/game.cpp:645-657): the first entry `score` beats;
      failing that the end of a table that is not full; failing that -1. */
  function HighScoreIndex(list: seq<HighScore>, score: int): (i: int)
    ensures -1 <= i <= |list|
    ensures 0 <= i < |list| ==> score > list[i].score && forall k :: 0 <= k < i ==> score <= list[k].score
    ensures i == |list| ==> |list| < MAX_HIGH_SCORES && forall k :: 0 <= k < |list| ==> score <= list[k].score
    ensures i == -1 <==> |list| >= MAX_HIGH_SCORES && forall k :: 0 <= k < |list| ==> score <= list[k].score
  {
    var first := FirstBeaten(list, score);
    if first < |list| then first
    else if |list| < MAX_HIGH_SCORES then |list|
    else -1
  }

  /** On a descending table the rank query and isHighScore agree: a score has a place
      exactly when it is a high score. */
  lemma {:induction false} IndexAgreesWithIsHighScore(list: seq<HighScore>, score: int)
    requires Descending(list)
    ensures HighScoreIndex(list, score) != -1 <==> IsHighScore(list, score)
  {
    var i := HighScoreIndex(list, score);
    if |list| >= MAX_HIGH_SCORES {
      var last := |list| - 1;
      if i != -1 {
        assert 0 <= i <= last;
        assert score > list[i].score;
        if i < last {
          assert list[i].score >= list[last].score;
        }
      } else {
        assert score <= list[last].score;
      }
    }
  }

  /** The name addHighScore stores: "ANON" for an empty name. */
  function StoredName(name: string): (stored: string)
    ensures |stored| > 0
    ensures name != [] ==> stored == name
  {
    if name == [] then ANON else name
  }

  /** Game::addHighScore's effect on the table (core/game.cpp:659-672): insert the entry
      at its rank and drop the last entry if the table has grown past ten; a score
      without a rank leaves the table alone. */
  function Inserted(list: seq<HighScore>, name: string, score: int): (r: seq<HighScore>)
    ensures HighScoreIndex(list, score) == -1 ==> r == list
    ensures var i := HighScoreIndex(list, score);
            i != -1 ==>
              0 <= i < |r| && r[i] == HighScore(StoredName(name), score) &&
              r[..i] == list[..i] &&
              |r| == (if |list| < MAX_HIGH_SCORES then |list| + 1 else |list|) &&
              forall k :: i < k < |r| ==> r[k] == list[k - 1]
    ensures |list| <= MAX_HIGH_SCORES ==> |r| <= MAX_HIGH_SCORES
  {
    var index := HighScoreIndex(list, score);
    if index == -1 then list
    else
      var grown := list[..index] + [HighScore(StoredName(name), score)] + list[index..];
      if |grown| > MAX_HIGH_SCORES then grown[..|grown| - 1] else grown
  }

  /** Inserting keeps a well-formed table well-formed. */
  lemma {:induction false} InsertedWellFormed(list: seq<HighScore>, name: string, score: int)
    requires WellFormed(list)
    ensures WellFormed(Inserted(list, name, score))
  {
    var r := Inserted(list, name, score);
    var i := HighScoreIndex(list, score);
    if i != -1 {
      forall a, b | 0 <= a < b < |r|
        ensures r[a].score >= r[b].score
      {
        if b < i {
          assert r[a] == list[a] && r[b] == list[b];
        } else if b == i {
          assert r[a] == list[a];
        } else if a == i {
          assert r[b] == list[b - 1];
          assert score > list[i].score || i == |list|;
          if b - 1 > i {
            assert list[i].score >= list[b - 1].score;
          }
        } else if a < i {
          assert r[a] == list[a] && r[b] == list[b - 1];
          assert list[a].score >= score;
        } else {
          assert r[a] == list[a - 1] && r[b] == list[b - 1];
        }
      }
    }
  }

  /** What is kept: with a free slot nothing is lost, and a full table loses exactly its
      old last entry. */
  lemma {:induction false} InsertedKeeps(list: seq<HighScore>, name: string, score: int)
    requires HighScoreIndex(list, score) != -1
    ensures var e := HighScore(StoredName(name), score);
            var r := Inserted(list, name, score);
            if |list| < MAX_HIGH_SCORES then multiset(r) == multiset(list) + multiset{e}
            else multiset(r) + multiset{list[|list| - 1]} == multiset(list) + multiset{e}
  {
    var i := HighScoreIndex(list, score);
    var e := HighScore(StoredName(name), score);
    var grown := list[..i] + [e] + list[i..];
    assert list == list[..i] + list[i..];
    assert multiset(grown) == multiset(list) + multiset{e};
    if |grown| > MAX_HIGH_SCORES {
      assert grown == grown[..|grown| - 1] + [grown[|grown| - 1]];
      assert grown[|grown| - 1] == list[|list| - 1];
    }
  }

  /** `entry` placed into the descending list `sorted` after every entry with a score at
      least as high. */
  function InsertByScore(sorted: seq<HighScore>, entry: HighScore): (r: seq<HighScore>)
    ensures multiset(r) == multiset(sorted) + multiset{entry}
    ensures |r| == |sorted| + 1
    ensures r[0] == entry || (|sorted| > 0 && r[0] == sorted[0])
  {
    if |sorted| == 0 then [entry]
    else if entry.score > sorted[0].score then [entry] + sorted
    else
      assert sorted == [sorted[0]] + sorted[1..];
      [sorted[0]] + InsertByScore(sorted[1..], entry)
  }

  /** Insertion keeps a list descending. */
  lemma {:induction false} InsertByScoreDescending(sorted: seq<HighScore>, entry: HighScore)
    requires Descending(sorted)
    ensures Descending(InsertByScore(sorted, entry))
  {
    var r := InsertByScore(sorted, entry);
    if |sorted| > 0 && entry.score <= sorted[0].score {
      var rest := InsertByScore(sorted[1..], entry);
      InsertByScoreDescending(sorted[1..], entry);
      assert r == [sorted[0]] + rest;
      assert rest[0] == entry || rest[0] == sorted[1];
      forall a, b | 0 <= a < b < |r|
        ensures r[a].score >= r[b].score
      {
        if a == 0 && b > 1 {
          assert rest[0].score >= rest[b - 1].score;
        }
      }
    }
  }

  /** The std::sort of loadHighScores (core/game.cpp:618-619): the entries in descending
      order of score. std::sort promises no order among equal scores; this insertion sort
      keeps their input order, which is one of the orders std::sort may produce. */
  method SortByScore(entries: seq<HighScore>) returns (sorted: seq<HighScore>)
    ensures Descending(sorted)
    ensures multiset(sorted) == multiset(entries)
  {
    sorted := [];
    var i := 0;
    while i < |entries|
      invariant 0 <= i <= |entries|
      invariant Descending(sorted)
      invariant multiset(sorted) == multiset(entries[..i])
    {
      InsertByScoreDescending(sorted, entries[i]);
      sorted := InsertByScore(sorted, entries[i]);
      assert entries[..i + 1] == entries[..i] + [entries[i]];
      i := i + 1;
    }
    assert entries[..i] == entries;
  }

  /** Removing one entry from a highest-first list keeps it highest-first and removes
      exactly that entry. */
  lemma RemoveAtDescending(b: seq<HighScore>, j: nat)
    requires Descending(b) && j < |b|
    ensures Descending(b[..j] + b[j + 1..])
    ensures multiset(b[..j] + b[j + 1..]) == multiset(b) - multiset{b[j]}
  {
    var r := b[..j] + b[j + 1..];
    assert b == b[..j] + [b[j]] + b[j + 1..];
    forall x, y | 0 <= x < y < |r| ensures r[x].score >= r[y].score {
      var ix := if x < j then x else x + 1;
      var iy := if y < j then y else y + 1;
      assert r[x] == b[ix] && r[y] == b[iy];
    }
  }

  /** Highest-first orderings of the same entries start with the same score. */
  lemma HeadScoresEqual(a: seq<HighScore>, b: seq<HighScore>)
    requires Descending(a) && Descending(b)
    requires multiset(a) == multiset(b) && |a| > 0 && |b| > 0
    ensures a[0].score == b[0].score
  {
    assert a[0] in multiset(b);
    assert b[0] in multiset(a);
  }

  /** Two orderings of the same entries that are both highest-first hold the same score at
      every position: whatever order the sort leaves tied entries in, the scores shown on
      each row are determined. */
  lemma {:induction false} SortedScoresDetermined(a: seq<HighScore>, b: seq<HighScore>)
    requires Descending(a) && Descending(b)
    requires multiset(a) == multiset(b)
    ensures |a| == |b|
    ensures forall i :: 0 <= i < |a| ==> a[i].score == b[i].score
  {
    assert |a| == |multiset(a)| == |multiset(b)| == |b|;
    if |a| > 0 {
      assert a[0] in multiset(b);
      var j :| 0 <= j < |b| && b[j] == a[0];
      HeadScoresEqual(a, b);
      var rest := b[..j] + b[j + 1..];
      RemoveAtDescending(b, j);
      assert a == [a[0]] + a[1..];
      assert multiset(a[1..]) == multiset(a) - multiset{a[0]};
      SortedScoresDetermined(a[1..], rest);
      ShiftedScores(a, b, rest, j);
    }
  }

  lemma ShiftedScores(a: seq<HighScore>, b: seq<HighScore>, rest: seq<HighScore>, j: nat)
    requires Descending(b) && j < |b| == |a| && rest == b[..j] + b[j + 1..]
    requires a[0].score == b[0].score == b[j].score
    requires forall i :: 0 <= i < |rest| ==> a[1..][i].score == rest[i].score
    ensures forall i :: 0 <= i < |a| ==> a[i].score == b[i].score
  {
    forall i | 0 < i < |a| ensures a[i].score == b[i].score {
      assert a[i].score == rest[i - 1].score;
      if i <= j {
        assert rest[i - 1] == b[i - 1];
        assert b[0].score >= b[i].score >= b[j].score;
      } else {
        assert rest[i - 1] == b[i];
      }
    }
  }
}
