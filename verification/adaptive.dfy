/**
 * The adaptive difficulty engine: the user's level from the category
 * statistics, the cards that suit it, the accuracy over the most recent
 * attempts, the advice to raise or lower the difficulty and the shuffled
 * recommendation.
 */
module Adaptive {
  import opened Domain
  import opened Seqs
  import opened ProgressRules

  // ---- calculateUserLevel -------------------------------------------------

  /** The averages a level asks for: at least this accuracy ... */
  function MinAccuracy(d: Difficulty): real {
    match d
    case Beginner => 0.0
    case Intermediate => 0.60
    case Advanced => 0.75
    case Expert => 0.85
  }

  /** ... and at most this mean answer time, in milliseconds. */
  function MaxAverageTime(d: Difficulty): real {
    match d
    case Beginner => 0.0
    case Intermediate => 120000.0
    case Advanced => 90000.0
    case Expert => 60000.0
  }

  /** The averages reach level `d`; beginner asks for nothing. */
  predicate Meets(accuracy: real, time: real, d: Difficulty) {
    d == Beginner || (accuracy >= MinAccuracy(d) && time <= MaxAverageTime(d))
  }

  /** The highest level whose thresholds the averages reach. */
  function LevelFor(accuracy: real, time: real): (l: Difficulty)
    ensures Meets(accuracy, time, l)
    ensures forall d: Difficulty :: Meets(accuracy, time, d) ==> d.Rank() <= l.Rank()
  {
    if accuracy >= 0.85 && time <= 60000.0 then Expert
    else if accuracy >= 0.75 && time <= 90000.0 then Advanced
    else if accuracy >= 0.60 && time <= 120000.0 then Intermediate
    else Beginner
  }

  /** Better accuracy and faster answers never lower the level. */
  lemma LevelMonotone(accuracy: real, time: real, accuracy': real, time': real)
    requires accuracy <= accuracy' && time' <= time
    ensures LevelFor(accuracy, time).Rank() <= LevelFor(accuracy', time').Rank()
  {
    var l := LevelFor(accuracy, time);
    assert Meets(accuracy', time', l);
  }

  /** Sums over the categories that have at least one correct answer. */
  datatype Sums = Sums(accuracy: real, time: real, count: nat)

  predicate Practised(cp: map<Category, CategoryStats>, c: Category) {
    c in cp && cp[c].completed > 0
  }

  function Totals(cp: map<Category, CategoryStats>, cats: seq<Category>): Sums {
    if cats == [] then Sums(0.0, 0.0, 0)
    else
      var s := Totals(cp, cats[..|cats| - 1]);
      var c := cats[|cats| - 1];
      if Practised(cp, c) then Sums(s.accuracy + cp[c].accuracy, s.time + cp[c].averageTime, s.count + 1)
      else s
  }

  /**
   * calculateUserLevel: the level the mean accuracy and mean answer time of
   * the practised categories reach; beginner when none is practised.
   */
  function UserLevel(cp: map<Category, CategoryStats>): (l: Difficulty)
    ensures l != Beginner ==> exists c :: Practised(cp, c)
  {
    var s := Totals(cp, AllCategories);
    if s.count == 0 then Beginner
    else
      TotalsHavePractised(cp, AllCategories);
      LevelFor(s.accuracy / s.count as real, s.time / s.count as real)
  }

  lemma {:induction false} TotalsHavePractised(cp: map<Category, CategoryStats>, cats: seq<Category>)
    requires Totals(cp, cats).count > 0
    ensures exists c :: c in cats && Practised(cp, c)
    decreases |cats|
  {
    var c := cats[|cats| - 1];
    if !Practised(cp, c) {
      TotalsHavePractised(cp, cats[..|cats| - 1]);
      var d :| d in cats[..|cats| - 1] && Practised(cp, d);
      assert d in cats;
    }
  }

  method CalculateUserLevel(p: Progress) returns (level: Difficulty)
    ensures level == UserLevel(p.categoryProgress)
  {
    var cp := p.categoryProgress;
    var totalAccuracy, totalTime, categoryCount := 0.0, 0.0, 0;
    for i := 0 to |AllCategories|
      invariant Totals(cp, AllCategories[..i]) == Sums(totalAccuracy, totalTime, categoryCount)
    {
      var c := AllCategories[i];
      assert AllCategories[..i + 1][..i] == AllCategories[..i];
      if c in cp && cp[c].completed > 0 {
        totalAccuracy := totalAccuracy + cp[c].accuracy;
        totalTime := totalTime + cp[c].averageTime;
        categoryCount := categoryCount + 1;
      }
    }
    assert AllCategories[..|AllCategories|] == AllCategories;
    if categoryCount == 0 {
      return Beginner;
    }
    level := LevelFor(totalAccuracy / categoryCount as real, totalTime / categoryCount as real);
  }

  lemma {:induction false} TotalsWithoutPractice(cp: map<Category, CategoryStats>, cats: seq<Category>)
    requires forall c :: c in cats ==> !Practised(cp, c)
    ensures Totals(cp, cats).count == 0
    decreases |cats|
  {
    if cats != [] {
      TotalsWithoutPractice(cp, cats[..|cats| - 1]);
    }
  }

  /**
   * Categories answered but never answered correctly do not count: without
   * a practised category the user is a beginner, whatever the accuracy
   * figures say.
   */
  lemma UserLevelWithoutPractice(cp: map<Category, CategoryStats>)
    requires forall c :: c in cp ==> cp[c].completed == 0
    ensures UserLevel(cp) == Beginner
  {
    TotalsWithoutPractice(cp, AllCategories);
  }

  lemma {:induction false} TotalsMeet(cp: map<Category, CategoryStats>, cats: seq<Category>, d: Difficulty)
    requires forall c :: c in cats && Practised(cp, c) ==> cp[c].accuracy >= MinAccuracy(d) && cp[c].averageTime <= MaxAverageTime(d)
    ensures var s := Totals(cp, cats);
      s.accuracy >= MinAccuracy(d) * s.count as real && s.time <= MaxAverageTime(d) * s.count as real
    decreases |cats|
  {
    if cats != [] {
      TotalsMeet(cp, cats[..|cats| - 1], d);
    }
  }

  lemma {:induction false} TotalsCountPractised(cp: map<Category, CategoryStats>, cats: seq<Category>, c: Category)
    requires c in cats && Practised(cp, c)
    ensures Totals(cp, cats).count > 0
    decreases |cats|
  {
    if cats[|cats| - 1] != c {
      TotalsCountPractised(cp, cats[..|cats| - 1], c);
    }
  }

  lemma MeanAtLeast(total: real, n: real, low: real)
    requires n > 0.0 && total >= low * n
    ensures total / n >= low
  {
  }

  lemma MeanAtMost(total: real, n: real, high: real)
    requires n > 0.0 && total <= high * n
    ensures total / n <= high
  {
  }

  /** Sums whose every term reaches a level have a mean that reaches it. */
  lemma SumsMeet(s: Sums, d: Difficulty)
    requires s.count > 0
    requires s.accuracy >= MinAccuracy(d) * s.count as real && s.time <= MaxAverageTime(d) * s.count as real
    ensures Meets(s.accuracy / s.count as real, s.time / s.count as real, d)
  {
    MeanAtLeast(s.accuracy, s.count as real, MinAccuracy(d));
    MeanAtMost(s.time, s.count as real, MaxAverageTime(d));
  }

  /** When every practised category reaches a level on its own, so does the user. */
  lemma UserLevelAtLeast(cp: map<Category, CategoryStats>, d: Difficulty)
    requires exists c :: Practised(cp, c)
    requires forall c :: Practised(cp, c) ==> Meets(cp[c].accuracy, cp[c].averageTime, d)
    ensures UserLevel(cp).Rank() >= d.Rank()
  {
    if d != Beginner {
      var c :| Practised(cp, c);
      AllCategoriesListed(c);
      TotalsCountPractised(cp, AllCategories, c);
      TotalsMeet(cp, AllCategories, d);
      SumsMeet(Totals(cp, AllCategories), d);
    }
  }

  /**
   * Two practised categories at 90% in 50 s and 80% in 55 s average to
   * exactly 85% in 52.5 s, which is expert; a third category answered
   * without a correct answer does not drag the average down.
   */
  lemma UserLevelExample()
    ensures UserLevel(map[
      Fundamentos := CategoryStats(9, 10, 0.9, 50000.0),
      Estrategia := CategoryStats(4, 5, 0.8, 55000.0),
      Contenido := CategoryStats(0, 3, 0.0, 200000.0)]) == Expert
  {
    var cp := map[
      Fundamentos := CategoryStats(9, 10, 0.9, 50000.0),
      Estrategia := CategoryStats(4, 5, 0.8, 55000.0),
      Contenido := CategoryStats(0, 3, 0.0, 200000.0)];
    assert AllCategories[..1] == [Fundamentos];
    assert AllCategories[..2] == [Fundamentos, Estrategia];
    assert AllCategories[..3] == [Fundamentos, Estrategia, Contenido];
    assert AllCategories[..4] == [Fundamentos, Estrategia, Contenido, Networking];
    assert Totals(cp, [Fundamentos]) == Sums(0.9, 50000.0, 1);
    assert Totals(cp, [Fundamentos, Estrategia]) == Sums(1.7, 105000.0, 2);
    assert Totals(cp, [Fundamentos, Estrategia, Contenido]) == Sums(1.7, 105000.0, 2);
    assert [Fundamentos, Estrategia, Contenido, Networking][..3] == [Fundamentos, Estrategia, Contenido];
    assert Totals(cp, [Fundamentos, Estrategia, Contenido, Networking]) == Sums(1.7, 105000.0, 2);
    assert Totals(cp, AllCategories) == Sums(1.7, 105000.0, 2);
  }

  // ---- isLevelAppropriate and adaptCards ----------------------------------

  /** Array.prototype.indexOf: the first position of `x`, or -1. */
  function IndexOf<T(==)>(s: seq<T>, x: T): (i: int)
    ensures -1 <= i && (i == -1 <==> x !in s)
    ensures 0 <= i ==> i < |s| && s[i] == x && x !in s[..i]
  {
    if s == [] then -1
    else if s[0] == x then 0
    else
      var k := IndexOf(s[1..], x);
      assert s == [s[0]] + s[1..];
      assert k >= 0 ==> s[..k + 1] == [s[0]] + s[1..][..k] && s[k + 1] == x;
      if k == -1 then -1 else k + 1
  }

  lemma LevelIndex(d: Difficulty)
    ensures IndexOf(Levels, d) == d.Rank()
  {
    assert d in Levels;
    var i := IndexOf(Levels, d);
    assert forall k :: 0 <= k < |Levels| ==> Levels[k].Rank() == k;
    assert Levels[i] == d;
  }

  /** A card suits a user at its level or one level above, never below. */
  function IsLevelAppropriate(cardLevel: Difficulty, userLevel: Difficulty): (b: bool)
    ensures b <==> userLevel.Rank() <= cardLevel.Rank() <= userLevel.Rank() + 1
  {
    LevelIndex(cardLevel);
    LevelIndex(userLevel);
    var cardIndex := IndexOf(Levels, cardLevel);
    var userIndex := IndexOf(Levels, userLevel);
    cardIndex >= userIndex && cardIndex <= userIndex + 1
  }

  /** The categories whose accuracy is below 70%, practised or not. */
  function WeakCategories(cp: map<Category, CategoryStats>): set<Category> {
    set c | c in cp && cp[c].accuracy < 0.7
  }

  predicate Suits(card: Card, p: Progress) {
    var weak := WeakCategories(p.categoryProgress);
    && IsLevelAppropriate(card.difficulty, UserLevel(p.categoryProgress))
    && (weak == {} || card.category in weak)
  }

  /**
   * adaptCards: the cards, in their order, at the user's level or one
   * above and, when some category is weak, in a weak category.
   */
  function AdaptCards(cards: seq<Card>, p: Progress): (r: seq<Card>)
    ensures IsSubsequence(r, cards) && |r| <= |cards|
    ensures forall card :: card in r <==> card in cards && Suits(card, p)
    ensures forall card :: multiset(r)[card] == if Suits(card, p) then multiset(cards)[card] else 0
    ensures forall card :: card in r ==>
      UserLevel(p.categoryProgress).Rank() <= card.difficulty.Rank() <= UserLevel(p.categoryProgress).Rank() + 1
    ensures WeakCategories(p.categoryProgress) != {} ==>
      forall card :: card in r ==> card.category in WeakCategories(p.categoryProgress)
  {
    Filter(cards, card => Suits(card, p))
  }

  /** Before any answer, every beginner or intermediate card is recommended, in every category. */
  lemma NewUserGetsTheEasyCards(userId: string, sessionId: string, now: nat, cards: seq<Card>)
    ensures forall card :: card in AdaptCards(cards, InitialProgress(userId, sessionId, now)) <==>
      card in cards && card.difficulty.Rank() <= Intermediate.Rank()
  {
    var p := InitialProgress(userId, sessionId, now);
    UserLevelWithoutPractice(p.categoryProgress);
    assert WeakCategories(p.categoryProgress) == {};
  }

  // ---- getRecentAccuracy ----------------------------------------------------

  /** All attempts, card by card in the order the cards were first answered. */
  function Flatten(p: Progress, order: seq<CardId>): seq<Attempt> {
    if order == [] then []
    else Flatten(p, order[..|order| - 1]) + History(p, order[|order| - 1])
  }

  predicate SortedByRecency(s: seq<Attempt>) {
    forall i, j :: 0 <= i < j < |s| ==> s[i].timestamp >= s[j].timestamp
  }

  /** Insert into a list sorted newest first, after every attempt at least as recent. */
  function InsertByRecency(sorted: seq<Attempt>, a: Attempt): (r: seq<Attempt>)
    requires SortedByRecency(sorted)
    ensures SortedByRecency(r)
    ensures multiset(r) == multiset(sorted) + multiset{a}
    ensures forall x :: x in r ==> x == a || x in sorted
  {
    if sorted == [] then [a]
    else if sorted[|sorted| - 1].timestamp >= a.timestamp then sorted + [a]
    else
      var front := InsertByRecency(sorted[..|sorted| - 1], a);
      InsertBeforeOlder(sorted, a, front);
      front + [sorted[|sorted| - 1]]
  }

  /** The step of the insertion that passes an attempt older than the one inserted. */
  lemma InsertBeforeOlder(sorted: seq<Attempt>, a: Attempt, front: seq<Attempt>)
    requires SortedByRecency(sorted) && sorted != []
    requires sorted[|sorted| - 1].timestamp < a.timestamp
    requires SortedByRecency(front)
    requires multiset(front) == multiset(sorted[..|sorted| - 1]) + multiset{a}
    requires forall x :: x in front ==> x == a || x in sorted[..|sorted| - 1]
    ensures SortedByRecency(front + [sorted[|sorted| - 1]])
    ensures multiset(front + [sorted[|sorted| - 1]]) == multiset(sorted) + multiset{a}
    ensures forall x :: x in front + [sorted[|sorted| - 1]] ==> x == a || x in sorted
  {
    var rest := sorted[..|sorted| - 1];
    var last := sorted[|sorted| - 1];
    assert sorted == rest + [last];
    forall k | 0 <= k < |front|
      ensures front[k].timestamp >= last.timestamp
    {
      assert front[k] in front;
      if front[k] != a {
        var m :| 0 <= m < |rest| && rest[m] == front[k];
        assert sorted[m] == front[k];
      }
    }
  }

  /** The sort by timestamp, newest first, that ranks the attempts. */
  function SortByRecency(s: seq<Attempt>): (r: seq<Attempt>)
    ensures SortedByRecency(r)
    ensures multiset(r) == multiset(s)
  {
    if s == [] then []
    else
      assert s == s[..|s| - 1] + [s[|s| - 1]];
      InsertByRecency(SortByRecency(s[..|s| - 1]), s[|s| - 1])
  }

  /**
   * The `count` most recent attempts: as many as there are, up to `count`,
   * drawn from the attempts, and none of the attempts left out is more
   * recent than one kept.
   */
  function Recent(p: Progress, count: nat): (r: seq<Attempt>)
    ensures var all := Flatten(p, p.attemptOrder);
      && |r| == Min(count, |all|)
      && multiset(r) <= multiset(all)
      && forall x, y :: x in r && y in multiset(all) - multiset(r) ==> x.timestamp >= y.timestamp
  {
    var sorted := SortByRecency(Flatten(p, p.attemptOrder));
    var r := Take(sorted, count);
    SplitMultiset(sorted, |r|);
    assert forall y :: y in multiset(sorted) - multiset(r) ==> y in sorted[|r|..];
    r
  }

  /** getRecentAccuracy: the share of correct answers among the recent attempts, 0 without any. */
  function RecentAccuracyOf(p: Progress, count: nat): (acc: real)
    ensures 0.0 <= acc <= 1.0
    ensures count == 0 || Flatten(p, p.attemptOrder) == [] ==> acc == 0.0
  {
    var recent := Recent(p, count);
    if |recent| == 0 then 0.0
    else Share(CorrectCount(recent), |recent|)
  }

  /** A count out of a positive total, as a fraction. */
  function Share(part: nat, total: nat): (r: real)
    requires part <= total && total > 0
    ensures 0.0 <= r <= 1.0
  {
    assert part as real <= total as real;
    part as real / total as real
  }

  method RecentAccuracy(p: Progress, count: nat) returns (acc: real)
    ensures acc == RecentAccuracyOf(p, count)
  {
    var recentAttempts: seq<Attempt> := [];
    for i := 0 to |p.attemptOrder|
      invariant recentAttempts == Flatten(p, p.attemptOrder[..i])
    {
      assert p.attemptOrder[..i + 1][..i] == p.attemptOrder[..i];
      recentAttempts := recentAttempts + History(p, p.attemptOrder[i]);
    }
    assert p.attemptOrder[..|p.attemptOrder|] == p.attemptOrder;
    var recent := Take(SortByRecency(recentAttempts), count);
    if |recent| == 0 {
      return 0.0;
    }
    acc := Share(CorrectCount(recent), |recent|);
  }

  lemma {:induction false} FlattenLength(p: Progress, order: seq<CardId>)
    requires forall id :: id in order ==> id in p.attempts
    ensures |Flatten(p, order)| == SumOver(p.attempts, order, Length)
    decreases |order|
  {
    if order != [] {
      FlattenLength(p, order[..|order| - 1]);
    }
  }

  /**
   * Under the counter invariant the attempts ranked by recency are exactly
   * totalAttempts many, so the window holds min(count, totalAttempts).
   */
  lemma RecentWindowSize(p: Progress, count: nat)
    requires Consistent(p)
    ensures |Recent(p, count)| == Min(count, p.totalAttempts)
  {
    FlattenLength(p, p.attemptOrder);
  }

  // ---- shouldIncreasedifficulty / shouldDecreaseeDifficulty ---------------

  const RecentWindow: nat := 10

  function ShouldIncreaseDifficulty(p: Progress): bool {
    && UserLevel(p.categoryProgress) != Expert
    && RecentAccuracyOf(p, RecentWindow) >= 0.85
    && p.currentStreak >= 5
  }

  function ShouldDecreaseDifficulty(p: Progress): bool {
    RecentAccuracyOf(p, RecentWindow) < 0.5 && p.currentStreak == 0
  }

  /** The two pieces of advice never coincide. */
  lemma NeverBoth(p: Progress)
    ensures !(ShouldIncreaseDifficulty(p) && ShouldDecreaseDifficulty(p))
  {
  }

  /** Raising the difficulty takes at least one recorded attempt. */
  lemma IncreaseNeedsAttempts(p: Progress)
    requires ShouldIncreaseDifficulty(p)
    ensures Flatten(p, p.attemptOrder) != []
  {
  }

  /** Before any answer the engine advises lowering the difficulty. */
  lemma NewUserIsAdvisedToDecrease(userId: string, sessionId: string, now: nat)
    ensures ShouldDecreaseDifficulty(InitialProgress(userId, sessionId, now))
  {
  }

  // ---- shuffleArray and getRecommendedCards --------------------------------

  lemma DrawInRange(draw: real, n: nat)
    requires 0.0 <= draw < 1.0 && n > 0
    ensures 0 <= (draw * n as real).Floor < n
  {
    assert draw * n as real < n as real by {
      assert (1.0 - draw) * n as real > 0.0;
    }
  }

  /** Math.floor(draw * n): an index below n. */
  function Pick(draw: real, n: nat): (j: nat)
    requires 0.0 <= draw < 1.0 && n > 0
    ensures j < n
    ensures j as real <= draw * n as real < (j + 1) as real
  {
    DrawInRange(draw, n);
    (draw * n as real).Floor
  }

  lemma SwapKeepsElements<T>(s: seq<T>, i: nat, j: nat)
    requires i < |s| && j < |s|
    ensures multiset(s[i := s[j]][j := s[i]]) == multiset(s)
  {
  }

  /**
   * shuffleArray: the Fisher-Yates shuffle of a copy. Each Math.random()
   * draw, in [0, 1), is one of `draws`, taken in the order the loop uses
   * them. The result is a permutation of the input.
   */
  method Shuffle<T>(s: seq<T>, draws: seq<real>) returns (r: seq<T>)
    requires |s| <= |draws| + 1
    requires forall k :: 0 <= k < |draws| ==> 0.0 <= draws[k] < 1.0
    ensures |r| == |s| && multiset(r) == multiset(s)
  {
    if |s| == 0 {
      return [];
    }
    var shuffled := new T[|s|](k requires 0 <= k < |s| => s[k]);
    assert shuffled[..] == s;
    var i := |s| - 1;
    while i > 0
      invariant 0 <= i < |s|
      invariant shuffled.Length == |s|
      invariant multiset(shuffled[..]) == multiset(s)
    {
      var j := Pick(draws[|s| - 1 - i], i + 1);
      ghost var before := shuffled[..];
      shuffled[i], shuffled[j] := shuffled[j], shuffled[i];
      assert shuffled[..] == before[i := before[j]][j := before[i]];
      SwapKeepsElements(before, i, j);
      i := i - 1;
    }
    r := shuffled[..];
  }

  /**
   * getRecommendedCards: up to `count` of the adapted cards in shuffled
   * order; all of them, reordered, when `count` covers them.
   */
  method GetRecommendedCards(cards: seq<Card>, p: Progress, count: nat, draws: seq<real>) returns (r: seq<Card>)
    requires |cards| <= |draws| + 1
    requires forall k :: 0 <= k < |draws| ==> 0.0 <= draws[k] < 1.0
    ensures |r| == Min(count, |AdaptCards(cards, p)|)
    ensures multiset(r) <= multiset(AdaptCards(cards, p))
    ensures count >= |AdaptCards(cards, p)| ==> multiset(r) == multiset(AdaptCards(cards, p))
    ensures forall card :: card in r ==> card in cards && Suits(card, p)
  {
    var adaptedCards := AdaptCards(cards, p);
    var shuffled := Shuffle(adaptedCards, draws);
    r := Take(shuffled, count);
    SplitMultiset(shuffled, |r|);
    assert forall card :: card in r ==> card in multiset(adaptedCards);
  }
}
