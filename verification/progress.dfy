/**
 * The progress record and the attempt processor: how one answer changes the
 * attempt history, the counters, the streaks and the per-category
 * statistics, and which relations between them every answer keeps.
 */
module ProgressRules {
  import opened Wrappers
  import opened Domain
  import opened Seqs

  /** One scored submission; times are milliseconds. */
  datatype Attempt = Attempt(
    cardId: CardId,
    attemptNumber: nat,
    selectedOption: OptionId,
    isCorrect: bool,
    timeSpent: nat,
    timestamp: nat,
    hintsUsed: nat)

  /** Per-category aggregate, kept incrementally. */
  datatype CategoryStats = CategoryStats(completed: nat, total: nat, accuracy: real, averageTime: real)

  /**
   * The session's progress record. `attempts` is a JavaScript Map in the
   * engine; `attemptOrder` lists its keys in insertion order, the order in
   * which the engine walks it.
   */
  datatype Progress = Progress(
    userId: string,
    sessionId: string,
    startTime: nat,
    lastActivity: nat,
    totalTimeSpent: nat,
    completedItems: set<CardId>,
    correctAnswers: nat,
    totalAttempts: nat,
    currentStreak: nat,
    bestStreak: nat,
    attempts: map<CardId, seq<Attempt>>,
    attemptOrder: seq<CardId>,
    bookmarkedCards: set<CardId>,
    masteredCards: set<CardId>,
    currentDifficulty: Difficulty,
    categoryProgress: map<Category, CategoryStats>)

  /** The history map and its key order describe the same keys, each once. */
  ghost predicate Shaped(p: Progress) {
    Distinct(p.attemptOrder) && forall id :: id in p.attempts <==> id in p.attemptOrder
  }

  /** createInitialProgress: all counters zero, all collections empty. */
  function InitialProgress(userId: string, sessionId: string, now: nat): (p: Progress)
    ensures Consistent(p)
    ensures p.totalAttempts == 0 && p.correctAnswers == 0 && p.currentStreak == 0 && p.bestStreak == 0
  {
    Progress(userId, sessionId, now, now, 0, {}, 0, 0, 0, 0, map[], [], {}, {}, Beginner, map[])
  }

  /** The attempts recorded for one card, empty when there are none. */
  function History(p: Progress, id: CardId): seq<Attempt> {
    if id in p.attempts then p.attempts[id] else []
  }

  /** getAttemptNumber: one more than the attempts already recorded for the card. */
  function AttemptNumber(p: Progress, id: CardId): (n: nat)
    ensures n >= 1
  {
    |History(p, id)| + 1
  }

  function Max(a: nat, b: nat): nat {
    if a >= b then a else b
  }

  /** The number of correct attempts in a history. */
  function CorrectCount(h: seq<Attempt>): (n: nat)
    ensures n <= |h|
  {
    if h == [] then 0
    else CorrectCount(h[..|h| - 1]) + (if h[|h| - 1].isCorrect then 1 else 0)
  }

  function Length(h: seq<Attempt>): nat {
    |h|
  }

  /** The sum of `f` over the histories of the listed cards. */
  function SumOver(m: map<CardId, seq<Attempt>>, order: seq<CardId>, f: seq<Attempt> -> nat): nat
    requires forall id :: id in order ==> id in m
  {
    if order == [] then 0
    else SumOver(m, order[..|order| - 1], f) + f(m[order[|order| - 1]])
  }

  ghost predicate StatsConsistent(s: CategoryStats) {
    s.total > 0 && s.completed <= s.total && s.accuracy == s.completed as real / s.total as real
  }

  /** The counters agree with the history they summarise. */
  ghost predicate CountersMatch(p: Progress)
    requires Shaped(p)
  {
    && p.totalAttempts == SumOver(p.attempts, p.attemptOrder, Length)
    && p.correctAnswers == SumOver(p.attempts, p.attemptOrder, CorrectCount)
  }

  /** Each history holds its own card's attempts, numbered 1, 2, 3, ... */
  ghost predicate Numbered(p: Progress) {
    forall id, i :: id in p.attempts && 0 <= i < |p.attempts[id]| ==>
      p.attempts[id][i].cardId == id && p.attempts[id][i].attemptNumber == i + 1
  }

  /** Every card answered correctly at least once is completed. */
  ghost predicate CompletedCovers(p: Progress) {
    forall id, i :: id in p.attempts && 0 <= i < |p.attempts[id]| && p.attempts[id][i].isCorrect ==>
      id in p.completedItems
  }

  ghost predicate CategoriesConsistent(p: Progress) {
    forall c :: c in p.categoryProgress ==> StatsConsistent(p.categoryProgress[c])
  }

  /**
   * The relations the attempt processor keeps between the history and the
   * aggregates derived from it; each category entry is only kept coherent on
   * its own, not tied to the history.
   */
  ghost predicate Consistent(p: Progress) {
    && Shaped(p)
    && CountersMatch(p)
    && p.currentStreak <= p.bestStreak
    && Numbered(p)
    && CompletedCovers(p)
    && CategoriesConsistent(p)
  }

  /**
   * updateCategoryProgress on one entry (a fresh zero entry when the
   * category has none yet).
   */
  function UpdateCategory(stats: Option<CategoryStats>, a: Attempt): (r: CategoryStats)
    ensures var s := if stats.Some? then stats.value else CategoryStats(0, 0, 0.0, 0.0);
      && r.total == s.total + 1
      && r.completed == s.completed + (if a.isCorrect then 1 else 0)
      && (s.completed <= s.total ==> StatsConsistent(r))
  {
    var s := if stats.Some? then stats.value else CategoryStats(0, 0, 0.0, 0.0);
    var completed := if a.isCorrect then s.completed + 1 else s.completed;
    var total := s.total + 1;
    CategoryStats(completed, total, completed as real / total as real,
                  RunningMean(s.averageTime, total, a.timeSpent as real))
  }

  /** The running average after the count-th sample `t`, from the average of the first count - 1. */
  function RunningMean(average: real, count: nat, t: real): (r: real)
    requires count > 0
    ensures r * count as real == average * (count - 1) as real + t
  {
    (average * (count - 1) as real + t) / count as real
  }

  function Lookup(cp: map<Category, CategoryStats>, c: Category): Option<CategoryStats> {
    if c in cp then Some(cp[c]) else None
  }

  /** Who the record belongs to, when it started, the bookmarks, the mastered cards and the difficulty. */
  predicate Untouched(p: Progress, q: Progress) {
    && q.userId == p.userId && q.sessionId == p.sessionId && q.startTime == p.startTime
    && q.bookmarkedCards == p.bookmarkedCards && q.masteredCards == p.masteredCards
    && q.currentDifficulty == p.currentDifficulty
  }

  /**
   * The steps of updateProgress that every attempt takes: append the attempt
   * to its card's history, count it, update the streaks and the completed
   * set, and note the time. The category entry is left alone.
   */
  function Tally(p: Progress, a: Attempt, now: nat): (r: Progress)
    ensures r.categoryProgress == p.categoryProgress
    ensures Untouched(p, r)
    ensures r.lastActivity == now && r.totalTimeSpent == p.totalTimeSpent + a.timeSpent
  {
    var streak := if a.isCorrect then p.currentStreak + 1 else 0;
    p.(
      attempts := p.attempts[a.cardId := History(p, a.cardId) + [a]],
      attemptOrder := if a.cardId in p.attempts then p.attemptOrder else p.attemptOrder + [a.cardId],
      totalAttempts := p.totalAttempts + 1,
      correctAnswers := if a.isCorrect then p.correctAnswers + 1 else p.correctAnswers,
      currentStreak := streak,
      bestStreak := if a.isCorrect then Max(p.bestStreak, streak) else p.bestStreak,
      completedItems := if a.isCorrect then p.completedItems + {a.cardId} else p.completedItems,
      lastActivity := now,
      totalTimeSpent := p.totalTimeSpent + a.timeSpent)
  }

  /** updateCategoryProgress on the record: the entry for `category` takes the attempt. */
  function WithCategory(p: Progress, category: Category, a: Attempt): Progress {
    p.(categoryProgress := p.categoryProgress[category := UpdateCategory(Lookup(p.categoryProgress, category), a)])
  }

  /**
   * updateProgress for an attempt at a card of the catalog: the common steps
   * and the update of the card's category.
   */
  function Record(p: Progress, a: Attempt, category: Category, now: nat): (r: Progress)
    ensures Untouched(p, r)
    ensures r.lastActivity == now && r.totalTimeSpent == p.totalTimeSpent + a.timeSpent
  {
    WithCategory(Tally(p, a, now), category, a)
  }

  /** Recording touches the category map in the answered card's category only. */
  lemma RecordCategoryMap(p: Progress, a: Attempt, category: Category, now: nat)
    ensures Record(p, a, category, now).categoryProgress ==
      p.categoryProgress[category := UpdateCategory(Lookup(p.categoryProgress, category), a)]
  {
  }

  /**
   * One attempt: its card's history grows by exactly that attempt, every
   * other history is unchanged, and the total grows by one.
   */
  lemma RecordAppendsOne(p: Progress, a: Attempt, category: Category, now: nat, id: CardId)
    ensures var q := Record(p, a, category, now);
      && q.totalAttempts == p.totalAttempts + 1
      && History(q, id) == (if id == a.cardId then History(p, id) + [a] else History(p, id))
  {
  }

  /**
   * The scoring rules: a correct attempt adds one to the correct answers and
   * the streak, raises the best streak to the new streak when it is higher,
   * and marks the card completed; an incorrect one resets the streak only.
   */
  lemma RecordScoring(p: Progress, a: Attempt, category: Category, now: nat)
    ensures var q := Record(p, a, category, now);
      if a.isCorrect then
        && q.correctAnswers == p.correctAnswers + 1
        && q.currentStreak == p.currentStreak + 1
        && q.bestStreak == Max(p.bestStreak, q.currentStreak)
        && q.completedItems == p.completedItems + {a.cardId}
      else
        && q.currentStreak == 0
        && q.correctAnswers == p.correctAnswers
        && q.bestStreak == p.bestStreak
        && q.completedItems == p.completedItems
  {
  }

  /**
   * Only the answered card's category changes: its total grows by one, its
   * completed count grows exactly when the attempt is correct, and its
   * accuracy is completed / total again.
   */
  lemma RecordCategory(p: Progress, a: Attempt, category: Category, now: nat, c: Category)
    requires c in p.categoryProgress ==> StatsConsistent(p.categoryProgress[c])
    ensures var q := Record(p, a, category, now);
      if c == category then
        var before := Lookup(p.categoryProgress, c);
        && c in q.categoryProgress
        && q.categoryProgress[c].total == (if before.Some? then before.value.total else 0) + 1
        && q.categoryProgress[c].completed ==
             (if before.Some? then before.value.completed else 0) + (if a.isCorrect then 1 else 0)
        && StatsConsistent(q.categoryProgress[c])
      else
        Lookup(q.categoryProgress, c) == Lookup(p.categoryProgress, c)
  {
  }

  // ---- the history sums ---------------------------------------------------

  lemma {:induction false} SumOverFrame(m: map<CardId, seq<Attempt>>, m': map<CardId, seq<Attempt>>,
                                        order: seq<CardId>, f: seq<Attempt> -> nat)
    requires forall id :: id in order ==> id in m && id in m' && m[id] == m'[id]
    ensures SumOver(m, order, f) == SumOver(m', order, f)
    decreases |order|
  {
    if order != [] {
      SumOverFrame(m, m', order[..|order| - 1], f);
    }
  }

  /** Replacing one listed history changes the sum by the difference of the two. */
  lemma {:induction false} SumOverUpdate(m: map<CardId, seq<Attempt>>, order: seq<CardId>, id: CardId,
                                         h: seq<Attempt>, f: seq<Attempt> -> nat)
    requires Distinct(order) && id in order
    requires forall k :: k in order ==> k in m
    ensures SumOver(m[id := h], order, f) + f(m[id]) == SumOver(m, order, f) + f(h)
    decreases |order|
  {
    var prefix := order[..|order| - 1];
    if order[|order| - 1] == id {
      assert id !in prefix;
      SumOverFrame(m, m[id := h], prefix, f);
    } else {
      assert id in prefix by {
        var i :| 0 <= i < |order| && order[i] == id;
        assert i < |order| - 1;
        assert prefix[i] == id;
      }
      SumOverUpdate(m, prefix, id, h, f);
    }
  }

  /** Adding a history under a new key, listed last, adds its value to the sum. */
  lemma SumOverAppend(m: map<CardId, seq<Attempt>>, order: seq<CardId>, id: CardId,
                      h: seq<Attempt>, f: seq<Attempt> -> nat)
    requires id !in order
    requires forall k :: k in order ==> k in m
    ensures SumOver(m[id := h], order + [id], f) == SumOver(m, order, f) + f(h)
  {
    assert (order + [id])[..|order|] == order;
    SumOverFrame(m, m[id := h], order, f);
  }

  lemma {:induction false} CorrectSumBounded(m: map<CardId, seq<Attempt>>, order: seq<CardId>)
    requires forall id :: id in order ==> id in m
    ensures SumOver(m, order, CorrectCount) <= SumOver(m, order, Length)
    decreases |order|
  {
    if order != [] {
      CorrectSumBounded(m, order[..|order| - 1]);
    }
  }

  /** In a consistent record there are never more correct answers than attempts. */
  lemma CorrectAnswersBounded(p: Progress)
    requires Consistent(p)
    ensures p.correctAnswers <= p.totalAttempts
  {
    CorrectSumBounded(p.attempts, p.attemptOrder);
  }

  lemma RecordKeepsShape(p: Progress, a: Attempt, category: Category, now: nat)
    requires Shaped(p)
    ensures Shaped(Record(p, a, category, now))
  {
  }

  /** Appending an attempt to one history changes the sum of `f` by how much it changes `f` there. */
  lemma SumAfterAppend(p: Progress, a: Attempt, f: seq<Attempt> -> nat, delta: nat)
    requires Shaped(p) && f([]) == 0
    requires f(History(p, a.cardId) + [a]) == f(History(p, a.cardId)) + delta
    ensures SumOver(p.attempts[a.cardId := History(p, a.cardId) + [a]],
                    if a.cardId in p.attempts then p.attemptOrder else p.attemptOrder + [a.cardId], f)
            == SumOver(p.attempts, p.attemptOrder, f) + delta
  {
    var id := a.cardId;
    if id in p.attempts {
      SumOverUpdate(p.attempts, p.attemptOrder, id, History(p, id) + [a], f);
    } else {
      SumOverAppend(p.attempts, p.attemptOrder, id, History(p, id) + [a], f);
    }
  }

  /** The sums after appending an attempt: one more attempt, one more correct iff it is correct. */
  lemma AppendedSums(p: Progress, a: Attempt, attempts: map<CardId, seq<Attempt>>, order: seq<CardId>)
    requires Shaped(p)
    requires attempts == p.attempts[a.cardId := History(p, a.cardId) + [a]]
    requires order == if a.cardId in p.attempts then p.attemptOrder else p.attemptOrder + [a.cardId]
    ensures forall id :: id in order ==> id in attempts
    ensures SumOver(attempts, order, Length) == SumOver(p.attempts, p.attemptOrder, Length) + 1
    ensures SumOver(attempts, order, CorrectCount) ==
            SumOver(p.attempts, p.attemptOrder, CorrectCount) + (if a.isCorrect then 1 else 0)
  {
    var h := History(p, a.cardId);
    assert CorrectCount(h + [a]) == CorrectCount(h) + (if a.isCorrect then 1 else 0) by {
      assert (h + [a])[..|h|] == h;
    }
    SumAfterAppend(p, a, Length, 1);
    SumAfterAppend(p, a, CorrectCount, if a.isCorrect then 1 else 0);
  }

  /** The fields of the record the counters depend on, after one attempt. */
  lemma TallyFields(p: Progress, a: Attempt, now: nat)
    ensures var q := Tally(p, a, now);
      && q.attempts == p.attempts[a.cardId := History(p, a.cardId) + [a]]
      && q.attemptOrder == (if a.cardId in p.attempts then p.attemptOrder else p.attemptOrder + [a.cardId])
      && q.totalAttempts == p.totalAttempts + 1
      && q.correctAnswers == p.correctAnswers + (if a.isCorrect then 1 else 0)
  {
  }

  /** Counters that sum a history, grown by what the history grew by, still sum it. */
  lemma CountersFromSums(q: Progress, p: Progress, correct: nat)
    requires Shaped(p) && CountersMatch(p) && Shaped(q)
    requires q.totalAttempts == p.totalAttempts + 1 && q.correctAnswers == p.correctAnswers + correct
    requires SumOver(q.attempts, q.attemptOrder, Length) == SumOver(p.attempts, p.attemptOrder, Length) + 1
    requires SumOver(q.attempts, q.attemptOrder, CorrectCount) == SumOver(p.attempts, p.attemptOrder, CorrectCount) + correct
    ensures CountersMatch(q)
  {
  }

  lemma RecordKeepsCounters(p: Progress, a: Attempt, category: Category, now: nat)
    requires Shaped(p) && CountersMatch(p)
    ensures Shaped(Record(p, a, category, now)) && CountersMatch(Record(p, a, category, now))
  {
    RecordKeepsShape(p, a, category, now);
    var t := Tally(p, a, now);
    TallyFields(p, a, now);
    AppendedSums(p, a, t.attempts, t.attemptOrder);
    var q := Record(p, a, category, now);
    assert q.attempts == t.attempts && q.attemptOrder == t.attemptOrder;
    CountersFromSums(q, p, if a.isCorrect then 1 else 0);
  }

  lemma RecordKeepsNumbering(p: Progress, a: Attempt, category: Category, now: nat)
    requires Numbered(p)
    requires a.attemptNumber == AttemptNumber(p, a.cardId)
    ensures Numbered(Record(p, a, category, now))
  {
  }

  lemma RecordKeepsCompleted(p: Progress, a: Attempt, category: Category, now: nat)
    requires CompletedCovers(p)
    ensures CompletedCovers(Record(p, a, category, now))
  {
  }

  lemma RecordKeepsCategories(p: Progress, a: Attempt, category: Category, now: nat)
    requires CategoriesConsistent(p)
    ensures CategoriesConsistent(Record(p, a, category, now))
  {
    var q := Record(p, a, category, now);
    forall c | c in q.categoryProgress ensures StatsConsistent(q.categoryProgress[c]) {
      RecordCategory(p, a, category, now, c);
    }
  }

  /**
   * The attempt processor keeps the record consistent, provided the attempt
   * carries its card's next attempt number, as answerCard builds it.
   */
  lemma RecordKeepsConsistent(p: Progress, a: Attempt, category: Category, now: nat)
    requires Consistent(p)
    requires a.attemptNumber == AttemptNumber(p, a.cardId)
    ensures Consistent(Record(p, a, category, now))
  {
    RecordKeepsCounters(p, a, category, now);
    RecordKeepsNumbering(p, a, category, now);
    RecordKeepsCompleted(p, a, category, now);
    RecordKeepsCategories(p, a, category, now);
  }

  // ---- whole sessions -----------------------------------------------------

  /** One answer event as the attempt processor receives it. */
  datatype Answer = Answer(attempt: Attempt, category: Category, now: nat)

  /** The record after the answers, processed in order. */
  function Replay(p: Progress, answers: seq<Answer>): Progress
    decreases |answers|
  {
    if answers == [] then p
    else
      var last := answers[|answers| - 1];
      Record(Replay(p, answers[..|answers| - 1]), last.attempt, last.category, last.now)
  }

  /** How many answers at the end of the sequence are correct, one after another. */
  function TrailingCorrect(answers: seq<Answer>): nat {
    if answers == [] then 0
    else if answers[|answers| - 1].attempt.isCorrect then TrailingCorrect(answers[..|answers| - 1]) + 1
    else 0
  }

  /** The longest run of consecutive correct answers: the best trailing run over all prefixes. */
  function LongestRun(answers: seq<Answer>): nat {
    if answers == [] then 0
    else Max(LongestRun(answers[..|answers| - 1]), TrailingCorrect(answers))
  }

  /**
   * From a record with no streak, the current streak is the run of correct
   * answers ending at the latest answer, across cards, and the best streak
   * is the longest such run of the session.
   */
  lemma {:induction false} ReplayStreaks(p: Progress, answers: seq<Answer>)
    requires p.currentStreak == 0 && p.bestStreak == 0
    ensures Replay(p, answers).currentStreak == TrailingCorrect(answers)
    ensures Replay(p, answers).bestStreak == LongestRun(answers)
    decreases |answers|
  {
    if answers != [] {
      ReplayStreaks(p, answers[..|answers| - 1]);
    }
  }

  /** The best streak never decreases. */
  lemma {:induction false} BestStreakNeverDrops(p: Progress, answers: seq<Answer>)
    ensures Replay(p, answers).bestStreak >= p.bestStreak
    decreases |answers|
  {
    if answers != [] {
      BestStreakNeverDrops(p, answers[..|answers| - 1]);
    }
  }

  function Sum(ts: seq<nat>): nat {
    if ts == [] then 0 else Sum(ts[..|ts| - 1]) + ts[|ts| - 1]
  }

  /** The times spent on the answers in category `c`, in order. */
  function TimesIn(answers: seq<Answer>, c: Category): seq<nat> {
    if answers == [] then []
    else
      var last := answers[|answers| - 1];
      TimesIn(answers[..|answers| - 1], c) + (if last.category == c then [last.attempt.timeSpent] else [])
  }

  /** The number of correct answers in category `c`. */
  function CorrectIn(answers: seq<Answer>, c: Category): nat {
    if answers == [] then 0
    else
      var last := answers[|answers| - 1];
      CorrectIn(answers[..|answers| - 1], c) + (if last.category == c && last.attempt.isCorrect then 1 else 0)
  }

  lemma CancelDivision(x: real, n: real)
    requires n > 0.0
    ensures (x / n) * n == x
  {
  }

  /** Folding one more sample into an exact mean gives the exact mean of all samples. */
  lemma RunningMeanStep(total: real, n: nat, t: real)
    requires n > 0
    ensures RunningMean(total / n as real, n + 1, t) == (total + t) / (n + 1) as real
  {
    CancelDivision(total, n as real);
    assert (total / n as real) * ((n + 1) - 1) as real == total;
  }

  /** The incremental mean of updateCategoryProgress extends an exact mean exactly. */
  lemma UpdateCategoryMean(stats: Option<CategoryStats>, a: Attempt, ts: seq<nat>)
    requires stats.None? ==> ts == []
    requires stats.Some? ==> stats.value.total == |ts| > 0 && stats.value.averageTime == Sum(ts) as real / |ts| as real
    ensures UpdateCategory(stats, a).averageTime == Sum(ts + [a.timeSpent]) as real / (|ts| + 1) as real
  {
    assert (ts + [a.timeSpent])[..|ts|] == ts;
    assert Sum(ts + [a.timeSpent]) as real == Sum(ts) as real + a.timeSpent as real;
    if stats.Some? {
      RunningMeanStep(Sum(ts) as real, |ts|, a.timeSpent as real);
    }
  }

  /**
   * The entry for `c` summarises the answers in `c` exactly: it exists when
   * there is one, counts them and the correct ones, and holds their ratio
   * and the exact mean of their times.
   */
  ghost predicate EntrySummarises(cp: map<Category, CategoryStats>, answers: seq<Answer>, c: Category) {
    var ts := TimesIn(answers, c);
    if ts == [] then c !in cp
    else
      && c in cp
      && cp[c].total == |ts|
      && cp[c].completed == CorrectIn(answers, c)
      && cp[c].accuracy == CorrectIn(answers, c) as real / |ts| as real
      && cp[c].averageTime == Sum(ts) as real / |ts| as real
  }

  lemma CorrectInBounded(answers: seq<Answer>, c: Category)
    ensures CorrectIn(answers, c) <= |TimesIn(answers, c)|
  {
  }

  /** The entry updateCategoryProgress writes, after an exact summary of `prev` with `correct` right. */
  lemma UpdateCategoryExact(stats: Option<CategoryStats>, a: Attempt, prev: seq<nat>, correct: nat)
    requires stats.None? ==> prev == [] && correct == 0
    requires stats.Some? ==>
      stats.value.total == |prev| > 0 && stats.value.completed == correct && stats.value.averageTime == Sum(prev) as real / |prev| as real
    ensures var r := UpdateCategory(stats, a);
      var n := correct + (if a.isCorrect then 1 else 0);
      && r.total == |prev| + 1
      && r.completed == n
      && r.accuracy == n as real / (|prev| + 1) as real
      && r.averageTime == Sum(prev + [a.timeSpent]) as real / |prev + [a.timeSpent]| as real
  {
    UpdateCategoryMean(stats, a, prev);
  }

  lemma CategoryStepSame(cp: map<Category, CategoryStats>, prefix: seq<Answer>, last: Answer, c: Category)
    requires EntrySummarises(cp, prefix, c)
    requires last.category == c
    ensures EntrySummarises(cp[c := UpdateCategory(Lookup(cp, c), last.attempt)], prefix + [last], c)
  {
    var answers := prefix + [last];
    assert answers[..|prefix|] == prefix;
    var prev := TimesIn(prefix, c);
    assert TimesIn(answers, c) == prev + [last.attempt.timeSpent];
    assert CorrectIn(answers, c) == CorrectIn(prefix, c) + (if last.attempt.isCorrect then 1 else 0);
    CorrectInBounded(prefix, c);
    UpdateCategoryExact(Lookup(cp, c), last.attempt, prev, CorrectIn(prefix, c));
  }

  lemma CategoryStepOther(cp: map<Category, CategoryStats>, prefix: seq<Answer>, last: Answer, c: Category)
    requires EntrySummarises(cp, prefix, c)
    requires last.category != c
    ensures EntrySummarises(cp[last.category := UpdateCategory(Lookup(cp, last.category), last.attempt)], prefix + [last], c)
  {
    var answers := prefix + [last];
    assert answers[..|prefix|] == prefix;
    assert TimesIn(answers, c) == TimesIn(prefix, c);
    assert CorrectIn(answers, c) == CorrectIn(prefix, c);
  }

  /**
   * For a category the record had no entry for, after any answers its entry
   * summarises exactly the answers given in that category.
   */
  lemma {:induction false} ReplayCategoryStats(p: Progress, answers: seq<Answer>, c: Category)
    requires c !in p.categoryProgress
    ensures EntrySummarises(Replay(p, answers).categoryProgress, answers, c)
    decreases |answers|
  {
    if answers != [] {
      var prefix := answers[..|answers| - 1];
      var last := answers[|answers| - 1];
      ReplayCategoryStats(p, prefix, c);
      assert answers == prefix + [last];
      var cp := Replay(p, prefix).categoryProgress;
      RecordCategoryMap(Replay(p, prefix), last.attempt, last.category, last.now);
      if last.category == c {
        CategoryStepSame(cp, prefix, last, c);
      } else {
        CategoryStepOther(cp, prefix, last, c);
      }
    }
  }
}
