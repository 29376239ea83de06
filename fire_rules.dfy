/**
 * The pure rules behind the fire-safety game's handlers (FireGame.tsx):
 * the score record, the category placement check and its message, the
 * quiz answers and their scoring, the firefighter-kit toggle and check,
 * and the three-key localStorage snapshot.
 */
module FireRules {

  import opened Wrappers
  import opened FireCatalog

  // ---------------------------------------------------------------------------
  // The score record
  // ---------------------------------------------------------------------------

  datatype GameState = GameState(currentLevel: int, score: int, lives: int, stars: int)

  /** The record a new game, and an abandoned one, starts from. */
  const InitialState := GameState(1, 0, 3, 0)

  /** The immediate part of `completeLevelWithReward`: 100 points and a star. */
  function Rewarded(s: GameState): GameState
  {
    s.(score := s.score + 100, stars := s.stars + 1)
  }

  /** `handleVideoEnd`: 200 points and a star for watching the video to its end. */
  function VideoWatched(s: GameState): GameState
  {
    s.(score := s.score + 200, stars := s.stars + 1)
  }

  /**
   * The video level as the page plays it. `onEnded` sits on the YouTube
   * `<iframe>`, which fires no media `ended` event, so `handleVideoEnd` never
   * runs and only the "Далее" button's reward is given.
   */
  function VideoLevelAsWritten(s: GameState): GameState
  {
    Rewarded(s)
  }

  /** The video level as its text promises: 200 points and a star for watching, then the button's reward. */
  function VideoLevelIntended(s: GameState): GameState
  {
    Rewarded(VideoWatched(s))
  }

  /** The page as written gives 200 points and one star less on the video level than it promises. */
  lemma VideoRewardLost(s: GameState)
    ensures VideoLevelIntended(s).score == s.score + 300 && VideoLevelIntended(s).stars == s.stars + 2
    ensures VideoLevelAsWritten(s).score == VideoLevelIntended(s).score - 200
    ensures VideoLevelAsWritten(s).stars == VideoLevelIntended(s).stars - 1
    ensures VideoLevelAsWritten(s).lives == VideoLevelIntended(s).lives
    ensures VideoLevelAsWritten(s).currentLevel == VideoLevelIntended(s).currentLevel
  {
  }

  /** The timer's functional update `prev.currentLevel + 1`, taken when the level it read is not the last. */
  function TimerAdvance(s: GameState): GameState
  {
    s.(currentLevel := s.currentLevel + 1)
  }

  /**
   * Two presses of a still-focused "Далее" within 2000 ms, as the page runs
   * them. The level-complete modal takes no keyboard focus, so both presses
   * give the reward and both set a timer. Each timer tests the level of the
   * render it was set in: before the last level both advance by one, on the
   * last level both send a finish request and the level stays.
   */
  function DoublePressAsWritten(s: GameState): GameState
  {
    var rewarded := Rewarded(Rewarded(s));
    if s.currentLevel == LevelCount then rewarded else TimerAdvance(TimerAdvance(rewarded))
  }

  /** One completion, as the modal is meant to allow: one reward, then the next level unless this was the last. */
  function SinglePress(s: GameState): GameState
  {
    if s.currentLevel == LevelCount then Rewarded(s) else TimerAdvance(Rewarded(s))
  }

  /**
   * A double press skips a level, and from the level before the last it
   * leaves the catalog; one completion stays inside it.
   */
  lemma DoublePressLeavesCatalog(s: GameState)
    requires 1 <= s.currentLevel <= LevelCount
    ensures s.currentLevel < LevelCount ==> DoublePressAsWritten(s).currentLevel == s.currentLevel + 2
    ensures s.currentLevel == LevelCount - 1 ==> FindLevel(Levels, DoublePressAsWritten(s).currentLevel).None?
    ensures FindLevel(Levels, SinglePress(s).currentLevel).Some? || s.currentLevel == LevelCount
    ensures DoublePressAsWritten(s).score == SinglePress(s).score + 100
    ensures DoublePressAsWritten(s).stars == SinglePress(s).stars + 1
  {
    CatalogLevel(DoublePressAsWritten(s).currentLevel);
    CatalogLevel(SinglePress(s).currentLevel);
  }

  // ---------------------------------------------------------------------------
  // Distinct sequences and their element sets
  // ---------------------------------------------------------------------------

  ghost predicate Distinct<T>(s: seq<T>)
  {
    forall i, j | 0 <= i < j < |s| :: s[i] != s[j]
  }

  ghost function Elements<T>(s: seq<T>): set<T>
  {
    set x | x in s
  }

  lemma {:induction false} DistinctCard<T>(s: seq<T>)
    requires Distinct(s)
    ensures |Elements(s)| == |s|
  {
    if s != [] {
      assert Distinct(s[1..]) by {
        forall i, j | 0 <= i < j < |s[1..]| ensures s[1..][i] != s[1..][j] {
          assert s[1..][i] == s[i + 1] && s[1..][j] == s[j + 1];
        }
      }
      DistinctCard(s[1..]);
      assert Elements(s) == Elements(s[1..]) + {s[0]};
      assert s[0] !in Elements(s[1..]) by {
        forall k | 0 <= k < |s[1..]| ensures s[1..][k] != s[0] {
          assert s[1..][k] == s[k + 1];
        }
      }
    }
  }

  lemma SubsetSameCard<T>(a: set<T>, b: set<T>)
    requires a <= b && |a| == |b|
    ensures a == b
  {
    assert b == a + (b - a);
    assert a * (b - a) == {};
  }

  /** A duplicate-free part of a duplicate-free whole has its length exactly when it is all of it. */
  lemma DistinctSubsetFull<T>(a: seq<T>, b: seq<T>)
    requires Distinct(a) && Distinct(b) && Elements(a) <= Elements(b)
    ensures |a| == |b| <==> Elements(a) == Elements(b)
  {
    DistinctCard(a);
    DistinctCard(b);
    if |a| == |b| {
      SubsetSameCard(Elements(a), Elements(b));
    }
  }

  // ---------------------------------------------------------------------------
  // Category level: dropping the selected item into a bin
  // ---------------------------------------------------------------------------

  datatype Category = Hazardous | Safe

  /** `isCorrect` of `handleCategorySelect`: the bin agrees with the item's flag. */
  predicate IsCorrectPlacement(item: Item, c: Category)
  {
    (item.isHazardous && c == Hazardous) || (!item.isHazardous && c == Safe)
  }

  const WrongPrefix := "Неправильно! "
  const WrongSuffix := " предмет."

  function ClassWord(hazardous: bool): string
  {
    if hazardous then "опасный" else "безопасный"
  }

  /** The error text of a wrong placement: it names the item and the class it really has. */
  function WrongPlacementMessage(item: Item): (r: string)
    ensures |r| == |WrongPrefix| + |item.name| + 1 + |ClassWord(item.isHazardous)| + |WrongSuffix|
    ensures r[..|WrongPrefix|] == WrongPrefix
    ensures r[|WrongPrefix|..|WrongPrefix| + |item.name|] == item.name
    ensures r[|WrongPrefix| + |item.name|] == ' '
    ensures r[|WrongPrefix| + |item.name| + 1..|r| - |WrongSuffix|] == ClassWord(item.isHazardous)
    ensures r[|r| - |WrongSuffix|..] == WrongSuffix
  {
    WrongPrefix + item.name + " " + ClassWord(item.isHazardous) + WrongSuffix
  }

  /** The item's id is already in a bin (`selectedItems.hazardous.find(i => i.id === item.id)`). */
  predicate HasItemId(s: seq<Item>, id: string)
  {
    exists x | x in s :: x.id == id
  }

  /**
   * What the category level keeps true: the level's items are distinct, the
   * bins hold distinct items of the level, and a selected item is one of the
   * level's items not yet in a bin.
   */
  ghost predicate PlacementValid(items: seq<Item>, hazardous: seq<Item>, safe: seq<Item>, selected: Option<Item>)
  {
    Distinct(items) && Distinct(hazardous + safe) && Elements(hazardous + safe) <= Elements(items) &&
    (selected.Some? ==> selected.value in items && selected.value !in hazardous + safe)
  }

  /** Putting the selected item into either bin keeps the level consistent. */
  lemma PlaceKeepsValid(items: seq<Item>, hazardous: seq<Item>, safe: seq<Item>, item: Item, c: Category)
    requires PlacementValid(items, hazardous, safe, Some(item))
    ensures c == Hazardous ==> PlacementValid(items, hazardous + [item], safe, None)
    ensures c == Safe ==> PlacementValid(items, hazardous, safe + [item], None)
  {
    var placed := hazardous + safe;
    assert Distinct(placed + [item]) by {
      forall i, j | 0 <= i < j < |placed + [item]| ensures (placed + [item])[i] != (placed + [item])[j] {
        if j == |placed| {
          assert (placed + [item])[i] == placed[i];
        } else {
          assert (placed + [item])[i] == placed[i] && (placed + [item])[j] == placed[j];
        }
      }
    }
    if c == Hazardous {
      assert hazardous + [item] + safe == hazardous + ([item] + safe);
      DistinctRotate(hazardous, safe, item);
      assert Elements(hazardous + [item] + safe) == Elements(placed) + {item};
    } else {
      assert hazardous + (safe + [item]) == placed + [item];
      assert Elements(placed + [item]) == Elements(placed) + {item};
    }
  }

  /** Moving one element within a sequence keeps it duplicate-free. */
  lemma DistinctRotate<T>(a: seq<T>, b: seq<T>, x: T)
    requires Distinct(a + b + [x])
    ensures Distinct(a + [x] + b)
  {
    var s, t := a + b + [x], a + [x] + b;
    forall i, j | 0 <= i < j < |t| ensures t[i] != t[j] {
      var i' := if i < |a| then i else if i == |a| then |s| - 1 else i - 1;
      var j' := if j < |a| then j else if j == |a| then |s| - 1 else j - 1;
      assert t[i] == s[i'] && t[j] == s[j'];
    }
  }

  /**
   * `items.length === hazardous.length + safe.length + 1` on a correct move is
   * the same as "after this move every item of the level is in a bin".
   */
  lemma CompletionIsAllPlaced(items: seq<Item>, placed: seq<Item>)
    requires Distinct(items) && Distinct(placed) && Elements(placed) <= Elements(items)
    ensures |placed| == |items| <==> Elements(placed) == Elements(items)
  {
    DistinctSubsetFull(placed, items);
  }

  /** The catalog's category items are distinct, so a fresh category level satisfies the invariant. */
  lemma CategoryItemsDistinct()
    ensures Distinct(CategoryItems)
  {
    var s := CategoryItems;
    assert forall i | 0 <= i < |s| :: s[i].id[0] == ['m', 'c', 'i', 't', 'b'][i];
  }

  // ---------------------------------------------------------------------------
  // Quiz level: the sparse answers array and `handleCheckAnswers`
  // ---------------------------------------------------------------------------

  /** `selectedAnswers`: a hole (an index never written) reads as `undefined`. */
  type Answers = seq<Option<int>>

  /** `selectedAnswers[i]`. */
  function AnswerAt(answers: Answers, i: int): Option<int>
  {
    if 0 <= i < |answers| then answers[i] else None
  }

  /** `newAnswers[questionIndex] = answerIndex` on a copy: writing past the end leaves holes. */
  function SetAnswer(answers: Answers, questionIndex: nat, answerIndex: int): (r: Answers)
    ensures |r| == if questionIndex < |answers| then |answers| else questionIndex + 1
    ensures AnswerAt(r, questionIndex) == Some(answerIndex)
    ensures forall j | j != questionIndex :: AnswerAt(r, j) == AnswerAt(answers, j)
  {
    if questionIndex < |answers| then answers[questionIndex := Some(answerIndex)]
    else answers + seq(questionIndex - |answers|, _ => None) + [Some(answerIndex)]
  }

  /** `selectedAnswer === question.correctAnswer` for question `i`. */
  predicate AnsweredRight(questions: seq<Question>, answers: Answers, i: int)
    requires 0 <= i < |questions|
  {
    AnswerAt(answers, i) == Some(questions[i].correctAnswer)
  }

  /** How many of the first `n` questions are answered right. */
  function CorrectUpTo(questions: seq<Question>, answers: Answers, n: nat): (k: nat)
    requires n <= |questions|
    ensures k <= n
  {
    if n == 0 then 0
    else CorrectUpTo(questions, answers, n - 1) + (if AnsweredRight(questions, answers, n - 1) then 1 else 0)
  }

  function CorrectCount(questions: seq<Question>, answers: Answers): nat
  {
    CorrectUpTo(questions, answers, |questions|)
  }

  /**
   * The `forEach` loop of `handleCheckAnswers`: +100 for every right answer,
   * -100 for every wrong or missing one.
   */
  method QuizScore(questions: seq<Question>, answers: Answers) returns (delta: int)
    ensures delta == 100 * CorrectCount(questions, answers) - 100 * (|questions| - CorrectCount(questions, answers))
    ensures -100 * |questions| <= delta <= 100 * |questions|
  {
    delta := 0;
    var index := 0;
    while index < |questions|
      invariant 0 <= index <= |questions|
      invariant delta == 100 * CorrectUpTo(questions, answers, index) - 100 * (index - CorrectUpTo(questions, answers, index))
    {
      if AnswerAt(answers, index) == Some(questions[index].correctAnswer) {
        delta := delta + 100;
      } else {
        delta := delta - 100;
      }
      index := index + 1;
    }
  }

  /** All `n` first questions are right exactly when the count reaches `n`. */
  lemma {:induction false} CorrectUpToAll(questions: seq<Question>, answers: Answers, n: nat)
    requires n <= |questions|
    ensures CorrectUpTo(questions, answers, n) == n <==> forall i | 0 <= i < n :: AnsweredRight(questions, answers, i)
  {
    if n > 0 {
      CorrectUpToAll(questions, answers, n - 1);
    }
  }

  /** None of the first `n` questions is right exactly when the count is zero. */
  lemma {:induction false} CorrectUpToNone(questions: seq<Question>, answers: Answers, n: nat)
    requires n <= |questions|
    ensures CorrectUpTo(questions, answers, n) == 0 <==> forall i | 0 <= i < n :: !AnsweredRight(questions, answers, i)
  {
    if n > 0 {
      CorrectUpToNone(questions, answers, n - 1);
    }
  }

  /** The full +100 per question is earned exactly when every question is answered right. */
  lemma PerfectQuiz(questions: seq<Question>, answers: Answers)
    ensures CorrectCount(questions, answers) == |questions| <==>
      forall i | 0 <= i < |questions| :: AnswerAt(answers, i) == Some(questions[i].correctAnswer)
  {
    CorrectUpToAll(questions, answers, |questions|);
    assert forall i | 0 <= i < |questions| ::
      AnsweredRight(questions, answers, i) <==> AnswerAt(answers, i) == Some(questions[i].correctAnswer);
  }

  /** An unanswered question counts as wrong: with no answers at all every question costs 100. */
  lemma UnansweredQuiz(questions: seq<Question>)
    ensures CorrectCount(questions, []) == 0
  {
    CorrectUpToNone(questions, [], |questions|);
  }

  // ---------------------------------------------------------------------------
  // Firefighter-kit level: toggling items and checking the kit
  // ---------------------------------------------------------------------------

  /** `selectedFirefighterItems.find(i => i.id === id)` finds something. */
  predicate HasId(s: seq<FirefighterItem>, id: string)
  {
    exists x | x in s :: x.id == id
  }

  /** `filter(i => i.id !== id)`. */
  function Without(s: seq<FirefighterItem>, id: string): (r: seq<FirefighterItem>)
    ensures |r| <= |s|
    ensures forall x :: x in r <==> x in s && x.id != id
    ensures !HasId(s, id) ==> r == s
  {
    if s == [] then []
    else
      assert forall x | x in s[1..] :: x in s;
      (if s[0].id == id then [] else [s[0]]) + Without(s[1..], id)
  }

  /** `handleFirefighterItemClick`: a selected id is removed, an unselected item appended. */
  function Toggle(s: seq<FirefighterItem>, item: FirefighterItem): seq<FirefighterItem>
  {
    if HasId(s, item.id) then Without(s, item.id) else s + [item]
  }

  ghost predicate NoDupIds(s: seq<FirefighterItem>)
  {
    forall i, j | 0 <= i < j < |s| :: s[i].id != s[j].id
  }

  lemma {:induction false} WithoutAppend(a: seq<FirefighterItem>, b: seq<FirefighterItem>, id: string)
    ensures Without(a + b, id) == Without(a, id) + Without(b, id)
  {
    if a == [] {
      assert a + b == b;
    } else {
      assert (a + b)[0] == a[0] && (a + b)[1..] == a[1..] + b;
      WithoutAppend(a[1..], b, id);
    }
  }

  /** Two clicks on an unselected item give back the selection it started from. */
  lemma ToggleTwice(s: seq<FirefighterItem>, item: FirefighterItem)
    requires !HasId(s, item.id)
    ensures Toggle(Toggle(s, item), item) == s
  {
    assert item in s + [item];
    WithoutAppend(s, [item], item.id);
    assert Without([item], item.id) == [];
  }

  /** A click flips whether the item's id is selected and leaves every other item alone. */
  lemma ToggleMembership(s: seq<FirefighterItem>, item: FirefighterItem, x: FirefighterItem)
    ensures HasId(Toggle(s, item), item.id) <==> !HasId(s, item.id)
    ensures x.id != item.id ==> (x in Toggle(s, item) <==> x in s)
  {
    if !HasId(s, item.id) {
      assert item in s + [item];
    }
  }

  lemma NoDupIdsTail(s: seq<FirefighterItem>)
    requires s != [] && NoDupIds(s)
    ensures NoDupIds(s[1..])
  {
    forall i, j | 0 <= i < j < |s[1..]| ensures s[1..][i].id != s[1..][j].id {
      assert s[1..][i] == s[i + 1] && s[1..][j] == s[j + 1];
    }
  }

  lemma NoDupIdsCons(x: FirefighterItem, rest: seq<FirefighterItem>)
    requires NoDupIds(rest) && forall y | y in rest :: y.id != x.id
    ensures NoDupIds([x] + rest)
  {
    var r := [x] + rest;
    forall i, j | 0 <= i < j < |r| ensures r[i].id != r[j].id {
      assert r[j] == rest[j - 1];
      if i > 0 {
        assert r[i] == rest[i - 1];
      } else {
        assert rest[j - 1] in rest;
      }
    }
  }

  lemma {:induction false} WithoutNoDup(s: seq<FirefighterItem>, id: string)
    requires NoDupIds(s)
    ensures NoDupIds(Without(s, id))
  {
    if s != [] {
      NoDupIdsTail(s);
      WithoutNoDup(s[1..], id);
      var rest := Without(s[1..], id);
      if s[0].id != id {
        forall x | x in rest ensures x.id != s[0].id {
          var k :| 0 <= k < |s[1..]| && s[1..][k] == x;
          assert s[k + 1] == x;
        }
        NoDupIdsCons(s[0], rest);
      }
    }
  }

  /** No click ever puts the same id into the selection twice. */
  lemma ToggleNoDup(s: seq<FirefighterItem>, item: FirefighterItem)
    requires NoDupIds(s)
    ensures NoDupIds(Toggle(s, item))
  {
    if HasId(s, item.id) {
      WithoutNoDup(s, item.id);
    } else {
      var r := s + [item];
      forall i, j | 0 <= i < j < |r| ensures r[i].id != r[j].id {
        assert r[i] == s[i];
        if j == |s| {
          assert s[i] in s;
        } else {
          assert r[j] == s[j];
        }
      }
    }
  }

  /** `filter(item => item.isCorrect)`. */
  function CorrectOnes(s: seq<FirefighterItem>): (r: seq<FirefighterItem>)
    ensures |r| <= |s|
    ensures forall x :: x in r <==> x in s && x.isCorrect
  {
    if s == [] then []
    else
      assert forall x | x in s[1..] :: x in s;
      (if s[0].isCorrect then [s[0]] else []) + CorrectOnes(s[1..])
  }

  /** `filter(item => !item.isCorrect)`. */
  function IncorrectOnes(s: seq<FirefighterItem>): (r: seq<FirefighterItem>)
    ensures |r| <= |s|
    ensures forall x :: x in r <==> x in s && !x.isCorrect
  {
    if s == [] then []
    else
      assert forall x | x in s[1..] :: x in s;
      (if s[0].isCorrect then [] else [s[0]]) + IncorrectOnes(s[1..])
  }

  /** The test of `handleCheckFirefighterKit`: as many correct items as the catalog has, and no wrong one. */
  predicate KitComplete(catalog: seq<FirefighterItem>, selected: seq<FirefighterItem>)
  {
    |CorrectOnes(selected)| == |CorrectOnes(catalog)| && |IncorrectOnes(selected)| == 0
  }

  lemma {:induction false} CorrectOnesDistinct(s: seq<FirefighterItem>)
    requires Distinct(s)
    ensures Distinct(CorrectOnes(s))
  {
    if s != [] {
      assert Distinct(s[1..]) by {
        forall i, j | 0 <= i < j < |s[1..]| ensures s[1..][i] != s[1..][j] {
          assert s[1..][i] == s[i + 1] && s[1..][j] == s[j + 1];
        }
      }
      CorrectOnesDistinct(s[1..]);
      var rest := CorrectOnes(s[1..]);
      if s[0].isCorrect {
        var r := [s[0]] + rest;
        forall i, j | 0 <= i < j < |r| ensures r[i] != r[j] {
          assert r[j] == rest[j - 1] && rest[j - 1] in s[1..];
          if i > 0 {
            assert r[i] == rest[i - 1];
          } else {
            var k :| 0 <= k < |s[1..]| && s[1..][k] == rest[j - 1];
            assert s[k + 1] == rest[j - 1];
          }
        }
      }
    }
  }

  lemma NoDupIdsDistinct(s: seq<FirefighterItem>)
    requires NoDupIds(s)
    ensures Distinct(s)
  {
    forall i, j | 0 <= i < j < |s| ensures s[i] != s[j] {
      assert s[i].id != s[j].id;
    }
  }

  lemma {:induction false} NoIncorrectOnes(s: seq<FirefighterItem>)
    requires forall x | x in s :: x.isCorrect
    ensures IncorrectOnes(s) == []
  {
    if s != [] {
      assert forall x | x in s[1..] :: x in s;
      NoIncorrectOnes(s[1..]);
    }
  }

  lemma {:induction false} AllCorrectOnes(s: seq<FirefighterItem>)
    requires forall x | x in s :: x.isCorrect
    ensures CorrectOnes(s) == s
  {
    if s != [] {
      assert forall x | x in s[1..] :: x in s;
      AllCorrectOnes(s[1..]);
    }
  }

  lemma {:induction false} NoCorrectOnes(s: seq<FirefighterItem>)
    requires forall x | x in s :: !x.isCorrect
    ensures CorrectOnes(s) == []
  {
    if s != [] {
      assert forall x | x in s[1..] :: x in s;
      NoCorrectOnes(s[1..]);
    }
  }

  lemma {:induction false} CorrectOnesAppend(a: seq<FirefighterItem>, b: seq<FirefighterItem>)
    ensures CorrectOnes(a + b) == CorrectOnes(a) + CorrectOnes(b)
  {
    if a == [] {
      assert a + b == b;
    } else {
      assert (a + b)[0] == a[0] && (a + b)[1..] == a[1..] + b;
      CorrectOnesAppend(a[1..], b);
    }
  }

  /**
   * On a duplicate-free selection drawn from a duplicate-free catalog, the
   * count test passes exactly when the selection is the set of correct items.
   */
  lemma KitCompleteIff(catalog: seq<FirefighterItem>, selected: seq<FirefighterItem>)
    requires Distinct(catalog) && NoDupIds(selected)
    requires forall x | x in selected :: x in catalog
    ensures KitComplete(catalog, selected) <==> Elements(selected) == Elements(CorrectOnes(catalog))
  {
    NoDupIdsDistinct(selected);
    CorrectOnesDistinct(selected);
    CorrectOnesDistinct(catalog);
    var mine, all := CorrectOnes(selected), CorrectOnes(catalog);
    assert Elements(mine) <= Elements(all);
    DistinctSubsetFull(mine, all);
    if |IncorrectOnes(selected)| == 0 {
      assert IncorrectOnes(selected) == [];
      forall x | x in selected ensures x.isCorrect {
        assert x !in IncorrectOnes(selected);
      }
      assert Elements(mine) == Elements(selected);
    }
    if Elements(selected) == Elements(all) {
      forall x | x in selected ensures x.isCorrect {
        assert x in Elements(selected);
      }
      NoIncorrectOnes(selected);
      assert Elements(mine) == Elements(selected);
    }
  }

  /** The catalog's kit is eight distinct items. */
  lemma KitItemsDistinct()
    ensures Distinct(KitItems)
  {
    var s := KitItems;
    assert forall i | 0 <= i < |s| :: s[i].id[..2] == ["he", "ax", "ho", "ma", "gl", "um", "to", "bo"][i];
  }

  lemma KitHeadCorrect()
    ensures forall x | x in KitItems[..5] :: x.isCorrect
  {
    var s := KitItems[..5];
    assert forall i | 0 <= i < 5 :: s[i] == KitItems[i];
  }

  lemma KitTailWrong()
    ensures forall x | x in KitItems[5..] :: !x.isCorrect
  {
    var s := KitItems[5..];
    assert forall i | 0 <= i < 3 :: s[i] == KitItems[i + 5];
  }

  /** Of the kit, helmet, axe, hose, mask and gloves are the correct items. */
  lemma KitCorrectItems()
    ensures CorrectOnes(KitItems) == KitItems[..5]
  {
    var correct, wrong := KitItems[..5], KitItems[5..];
    assert KitItems == correct + wrong;
    KitHeadCorrect();
    KitTailWrong();
    CorrectOnesAppend(correct, wrong);
    AllCorrectOnes(correct);
    NoCorrectOnes(wrong);
  }

  /**
   * On the kit level the check passes exactly when the selection is helmet,
   * axe, hose, mask and gloves, in any order.
   */
  lemma KitLevelComplete(selected: seq<FirefighterItem>)
    requires NoDupIds(selected) && forall x | x in selected :: x in KitItems
    ensures KitComplete(KitItems, selected) <==> Elements(selected) == Elements(KitItems[..5])
  {
    KitItemsDistinct();
    KitCorrectItems();
    KitCompleteIff(KitItems, selected);
  }

  // ---------------------------------------------------------------------------
  // Persistence: the three localStorage keys
  // ---------------------------------------------------------------------------

  datatype GamePlayer = GamePlayer(
    id: string, gameId: string, gameName: string, gameCode: string,
    fullName: string, stars: int, score: int, createdAt: string)

  /**
   * A localStorage value: the JSON text of a score record or of a player, or
   * a plain string. Serialisation is not modelled; every JSON text is non-empty.
   */
  datatype Stored = Text(text: string) | StateJson(state: GameState) | PlayerJson(player: GamePlayer)

  /**
   * A localStorage key: one of the three the game uses, or any other key of
   * the origin (an `OtherKey` never carries one of the three names).
   */
  datatype Key = StateKey | NameKey | PlayerKey | OtherKey(name: string)
  {
    /** The key's string in localStorage. */
    function Name(): string
    {
      match this
      case StateKey => "fireGameState"
      case NameKey => "fireGamePlayerName"
      case PlayerKey => "fireGamePlayer"
      case OtherKey(name) => name
    }
  }

  type Storage = map<Key, Stored>

  /** `localStorage.getItem(key)` is truthy: present and not the empty string. */
  predicate Truthy(storage: Storage, key: Key)
  {
    key in storage && storage[key] != Text("")
  }

  datatype Snapshot = Snapshot(state: GameState, playerName: string, player: GamePlayer)

  /** The mount effect: a saved game is picked up only when all three keys are truthy. */
  function Restore(storage: Storage): (r: Option<Snapshot>)
    ensures r.Some? ==> Truthy(storage, StateKey) && Truthy(storage, NameKey) && Truthy(storage, PlayerKey)
    ensures r.Some? ==>
      storage[StateKey] == StateJson(r.value.state) &&
      storage[NameKey] == Text(r.value.playerName) &&
      storage[PlayerKey] == PlayerJson(r.value.player)
  {
    if Truthy(storage, StateKey) && Truthy(storage, NameKey) && Truthy(storage, PlayerKey) &&
       storage[StateKey].StateJson? && storage[NameKey].Text? && storage[PlayerKey].PlayerJson?
    then Some(Snapshot(storage[StateKey].state, storage[NameKey].text, storage[PlayerKey].player))
    else None
  }

  /** The save effect: while a game runs, the score record and the name are written back. */
  function Save(storage: Storage, started: bool, state: GameState, playerName: string): (r: Storage)
    ensures started ==> StateKey in r && r[StateKey] == StateJson(state) && NameKey in r && r[NameKey] == Text(playerName)
    ensures !started ==> r == storage
    ensures forall k | k != StateKey && k != NameKey :: (k in r <==> k in storage) && (k in r ==> r[k] == storage[k])
  {
    if started then storage[StateKey := StateJson(state)][NameKey := Text(playerName)] else storage
  }

  /** `localStorage.setItem('fireGamePlayer', ...)` after a successful registration. */
  function StorePlayer(storage: Storage, player: GamePlayer): Storage
  {
    storage[PlayerKey := PlayerJson(player)]
  }

  /** The three `removeItem` calls of an abandoned or finished game. */
  function Clear(storage: Storage): (r: Storage)
    ensures Restore(r).None?
    ensures forall k | k != StateKey && k != NameKey && k != PlayerKey :: (k in r <==> k in storage) && (k in r ==> r[k] == storage[k])
  {
    storage - {StateKey, NameKey, PlayerKey}
  }

  /** A registered, running game is found again on the next mount. */
  lemma SaveThenRestore(storage: Storage, player: GamePlayer, state: GameState, playerName: string)
    requires playerName != ""
    ensures Restore(Save(StorePlayer(storage, player), true, state, playerName)) == Some(Snapshot(state, playerName, player))
  {
    var r := Save(StorePlayer(storage, player), true, state, playerName);
    assert r[StateKey] == StateJson(state) && r[NameKey] == Text(playerName) && r[PlayerKey] == PlayerJson(player);
  }

  /** Writing back what was just restored changes nothing. */
  lemma RestoreThenSave(storage: Storage)
    requires Restore(storage).Some?
    ensures var snap := Restore(storage).value; Save(storage, true, snap.state, snap.playerName) == storage
  {
    var snap := Restore(storage).value;
    var r := Save(storage, true, snap.state, snap.playerName);
    assert forall k | k in r :: k in storage && r[k] == storage[k];
  }

  // ---------------------------------------------------------------------------
  // The result sent when the last level is finished
  // ---------------------------------------------------------------------------

  /** The body of `PUT /game/finish/{player id}`. */
  datatype FinishRequest = FinishRequest(playerId: string, stars: int, score: int)

  /** What the finish request should carry: the record the game-complete modal shows. */
  function FinishRequestFor(player: GamePlayer, shown: GameState): FinishRequest
  {
    FinishRequest(player.id, shown.stars, shown.score)
  }

  /**
   * What the timer of `completeLevelWithReward` actually sends: it calls the
   * `handleFinalLevelComplete` of the render in which the level was
   * completed, whose `gameState` is the record from before the reward.
   */
  function FinishRequestAsWritten(player: GamePlayer, atCompletion: GameState): FinishRequest
  {
    FinishRequest(player.id, atCompletion.stars, atCompletion.score)
  }

  /** The sent result always misses the last level's star and 100 points. */
  lemma StaleFinishRequest(player: GamePlayer, atCompletion: GameState)
    ensures var sent, shown := FinishRequestAsWritten(player, atCompletion), FinishRequestFor(player, Rewarded(atCompletion));
      sent != shown && sent.stars == shown.stars - 1 && sent.score == shown.score - 100
  {
  }
}
