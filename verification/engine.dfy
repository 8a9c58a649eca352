/**
 * The flip-card engine: the card catalog, the learner's progress and the
 * card on screen, with the operations that load cards, start and answer a
 * card, bookmark, reset, import progress and recommend cards.
 */
module Engine {
  import opened Wrappers
  import opened Domain
  import opened Seqs
  import Catalog
  import opened ProgressRules
  import opened Migration
  import opened Adaptive

  /**
   * calculateTimeSpent: a time between 30 s and 2.5 min, in milliseconds,
   * from one Math.random() draw in [0, 1).
   */
  function TimeSpent(draw: real): (t: nat)
    requires 0.0 <= draw < 1.0
    ensures 30000 <= t < 150000
  {
    Pick(draw, 120000) + 30000
  }

  /** getStats' accuracy: correct answers over attempts, 0 before the first attempt. */
  function StatsAccuracy(p: Progress): (r: real)
    ensures p.totalAttempts == 0 ==> r == 0.0
    ensures p.correctAnswers <= p.totalAttempts ==> 0.0 <= r <= 1.0
  {
    assert p.correctAnswers <= p.totalAttempts ==> p.correctAnswers as real <= p.totalAttempts as real;
    if p.totalAttempts > 0 then p.correctAnswers as real / p.totalAttempts as real
    else 0.0
  }

  /** On a consistent record the accuracy is a fraction. */
  lemma StatsAccuracyInRange(p: Progress)
    requires Consistent(p)
    ensures 0.0 <= StatsAccuracy(p) <= 1.0
  {
    CorrectAnswersBounded(p);
  }

  /**
   * The steps of updateProgress, one after the other, make `Record`: the
   * history, then the counters, then the category when the card is known,
   * then the activity time; without the category they make `Tally`.
   */
  lemma StepsMakeRecord(p: Progress, appended: Progress, counted: Progress, a: Attempt, now: nat)
    requires appended == p.(
      attempts := p.attempts[a.cardId := History(p, a.cardId) + [a]],
      attemptOrder := if a.cardId in p.attempts then p.attemptOrder else p.attemptOrder + [a.cardId])
    requires var streak := if a.isCorrect then appended.currentStreak + 1 else 0;
      counted == appended.(
        totalAttempts := appended.totalAttempts + 1,
        correctAnswers := if a.isCorrect then appended.correctAnswers + 1 else appended.correctAnswers,
        currentStreak := streak,
        bestStreak := if a.isCorrect then Max(appended.bestStreak, streak) else appended.bestStreak,
        completedItems := if a.isCorrect then appended.completedItems + {a.cardId} else appended.completedItems)
    ensures counted.(lastActivity := now).(totalTimeSpent := counted.totalTimeSpent + a.timeSpent) == Tally(p, a, now)
    ensures forall category: Category ::
      WithCategory(counted, category, a).(lastActivity := now).(totalTimeSpent := counted.totalTimeSpent + a.timeSpent)
      == Record(p, a, category, now)
  {
  }

  class FlipCardEngine {
    const userId: string
    const sessionId: string
    /** The cards by id, in the order their ids were first loaded. */
    var cards: Catalog.Catalog
    var progress: Progress
    var currentCard: Option<Card>

    ghost predicate Valid()
      reads this
    {
      Catalog.Valid(cards) && Shaped(progress)
    }

    /** A new engine has no cards, no card on screen and fresh progress. */
    constructor (userId: string, sessionId: string, now: nat)
      ensures Valid()
      ensures this.userId == userId && this.sessionId == sessionId
      ensures cards == Catalog.Empty && currentCard == None
      ensures progress == InitialProgress(userId, sessionId, now)
    {
      this.userId := userId;
      this.sessionId := sessionId;
      cards := Catalog.Empty;
      progress := InitialProgress(userId, sessionId, now);
      currentCard := None;
    }

    /**
     * loadCards: validate and store each card in turn, as Catalog.Load
     * describes; the first invalid card stops the loop with its error.
     */
    method LoadCards(batch: seq<CardInput>) returns (outcome: Outcome<Error>)
      requires Valid()
      modifies this
      ensures Valid()
      ensures (cards, outcome) == Catalog.Load(old(cards), batch)
      ensures progress == old(progress) && currentCard == old(currentCard)
    {
      var i := 0;
      while i < |batch|
        invariant 0 <= i <= |batch|
        invariant Catalog.Valid(cards)
        invariant Catalog.Load(old(cards), batch) == Catalog.Load(cards, batch[i..])
        invariant progress == old(progress) && currentCard == old(currentCard)
      {
        assert batch[i..][0] == batch[i] && batch[i..][1..] == batch[i + 1..];
        match ValidateCard(batch[i])
        case Failure(e) =>
          return Fail(e);
        case Success(card) =>
          cards := Catalog.Upsert(cards, card);
        i := i + 1;
      }
      return Pass;
    }

    /** startCard: put a stored card on screen; an unknown id fails and changes nothing. */
    method StartCard(cardId: CardId) returns (outcome: Outcome<Error>)
      requires Valid()
      modifies this
      ensures Valid()
      ensures cards == old(cards) && progress == old(progress)
      ensures cardId in cards.byId ==> outcome == Pass && currentCard == Some(cards.byId[cardId])
      ensures cardId !in cards.byId ==> outcome == Fail(CardNotFound(cardId)) && currentCard == old(currentCard)
    {
      if cardId !in cards.byId {
        return Fail(CardNotFound(cardId));
      }
      currentCard := Some(cards.byId[cardId]);
      return Pass;
    }

    /**
     * answerCard: look the card and the chosen option up, build the attempt
     * (next attempt number, the draw's time, `now` as its timestamp, no
     * hints), record it and answer whether the option was correct. An
     * unknown card or option fails before anything changes. Recording keeps
     * the record consistent.
     */
    method AnswerCard(cardId: CardId, optionId: OptionId, draw: real, now: nat) returns (r: Result<bool, Error>)
      requires Valid()
      requires 0.0 <= draw < 1.0
      modifies this
      ensures Valid()
      ensures cards == old(cards) && currentCard == old(currentCard)
      ensures cardId !in cards.byId ==> r == Failure(CardNotFound(cardId)) && progress == old(progress)
      ensures cardId in cards.byId && FindOption(cards.byId[cardId].options, optionId).None? ==>
        r == Failure(OptionNotFound(optionId)) && progress == old(progress)
      ensures cardId in cards.byId && FindOption(cards.byId[cardId].options, optionId).Some? ==>
        var option := FindOption(cards.byId[cardId].options, optionId).value;
        var attempt := Attempt(cardId, AttemptNumber(old(progress), cardId), optionId, option.isCorrect,
                               TimeSpent(draw), now, 0);
        && r == Success(option.isCorrect)
        && progress == Record(old(progress), attempt, cards.byId[cardId].category, now)
      ensures Consistent(old(progress)) ==> Consistent(progress)
    {
      if cardId !in cards.byId {
        return Failure(CardNotFound(cardId));
      }
      var card := cards.byId[cardId];
      var found := FindOption(card.options, optionId);
      if found.None? {
        return Failure(OptionNotFound(optionId));
      }
      var option := found.value;
      var attempt := Attempt(cardId, AttemptNumber(progress, cardId), optionId, option.isCorrect,
                             TimeSpent(draw), now, 0);
      ghost var before := progress;
      UpdateProgress(attempt, now);
      RecordKeepsShape(before, attempt, card.category, now);
      if Consistent(before) {
        RecordKeepsConsistent(before, attempt, card.category, now);
      }
      return Success(option.isCorrect);
    }

    /**
     * updateProgress: record the attempt; the category of its card is
     * updated when the card is in the catalog.
     */
    method UpdateProgress(attempt: Attempt, now: nat)
      modifies this
      ensures cards == old(cards) && currentCard == old(currentCard)
      ensures attempt.cardId in cards.byId ==>
        progress == Record(old(progress), attempt, cards.byId[attempt.cardId].category, now)
      ensures attempt.cardId !in cards.byId ==> progress == Tally(old(progress), attempt, now)
    {
      ghost var p := progress;
      var id := attempt.cardId;
      AddAttempt(attempt);
      ghost var appended := progress;
      CountAttempt(attempt);
      ghost var counted := progress;
      StepsMakeRecord(p, appended, counted, attempt, now);
      if id in cards.byId {
        UpdateCategoryProgress(cards.byId[id].category, attempt);
      }
      progress := progress.(lastActivity := now);
      progress := progress.(totalTimeSpent := progress.totalTimeSpent + attempt.timeSpent);
    }

    /** The first step of updateProgress: append the attempt to its card's history. */
    method AddAttempt(attempt: Attempt)
      modifies this
      ensures cards == old(cards) && currentCard == old(currentCard)
      ensures progress == old(progress).(
        attempts := old(progress).attempts[attempt.cardId := History(old(progress), attempt.cardId) + [attempt]],
        attemptOrder := if attempt.cardId in old(progress).attempts then old(progress).attemptOrder
                        else old(progress).attemptOrder + [attempt.cardId])
    {
      var id := attempt.cardId;
      if id !in progress.attempts {
        progress := progress.(attempts := progress.attempts[id := []], attemptOrder := progress.attemptOrder + [id]);
      }
      progress := progress.(attempts := progress.attempts[id := progress.attempts[id] + [attempt]]);
    }

    /** The second step of updateProgress: the counters, the streaks and the completed set. */
    method CountAttempt(attempt: Attempt)
      modifies this
      ensures cards == old(cards) && currentCard == old(currentCard)
      ensures var streak := if attempt.isCorrect then old(progress).currentStreak + 1 else 0;
        progress == old(progress).(
          totalAttempts := old(progress).totalAttempts + 1,
          correctAnswers := if attempt.isCorrect then old(progress).correctAnswers + 1 else old(progress).correctAnswers,
          currentStreak := streak,
          bestStreak := if attempt.isCorrect then Max(old(progress).bestStreak, streak) else old(progress).bestStreak,
          completedItems := if attempt.isCorrect then old(progress).completedItems + {attempt.cardId}
                            else old(progress).completedItems)
    {
      progress := progress.(totalAttempts := progress.totalAttempts + 1);
      if attempt.isCorrect {
        progress := progress.(correctAnswers := progress.correctAnswers + 1);
        progress := progress.(currentStreak := progress.currentStreak + 1);
        progress := progress.(bestStreak := Max(progress.bestStreak, progress.currentStreak));
        progress := progress.(completedItems := progress.completedItems + {attempt.cardId});
      } else {
        progress := progress.(currentStreak := 0);
      }
    }

    /**
     * updateCategoryProgress: create a zero entry if the category has none,
     * count the attempt, recompute the accuracy and fold the time into the
     * running average. Every other category is left as it was.
     */
    method UpdateCategoryProgress(category: Category, attempt: Attempt)
      modifies this
      ensures cards == old(cards) && currentCard == old(currentCard)
      ensures progress == WithCategory(old(progress), category, attempt)
    {
      var categoryProgress := progress.categoryProgress;
      if category !in categoryProgress {
        categoryProgress := categoryProgress[category := CategoryStats(0, 0, 0.0, 0.0)];
      }
      var stats := categoryProgress[category];
      if attempt.isCorrect {
        stats := stats.(completed := stats.completed + 1);
      }
      stats := stats.(total := stats.total + 1);
      stats := stats.(accuracy := stats.completed as real / stats.total as real);
      stats := stats.(averageTime := RunningMean(stats.averageTime, stats.total, attempt.timeSpent as real));
      assert stats == UpdateCategory(Lookup(progress.categoryProgress, category), attempt);
      progress := progress.(categoryProgress := categoryProgress[category := stats]);
    }

    /** bookmarkCard: add the id to, or remove it from, the bookmarks; nothing else changes. */
    method BookmarkCard(cardId: CardId, bookmarked: bool)
      requires Valid()
      modifies this
      ensures Valid()
      ensures cards == old(cards) && currentCard == old(currentCard)
      ensures progress == old(progress).(bookmarkedCards :=
        if bookmarked then old(progress).bookmarkedCards + {cardId} else old(progress).bookmarkedCards - {cardId})
    {
      if bookmarked {
        progress := progress.(bookmarkedCards := progress.bookmarkedCards + {cardId});
      } else {
        progress := progress.(bookmarkedCards := progress.bookmarkedCards - {cardId});
      }
    }

    /** resetProgress: fresh progress for the same user and session; the cards stay. */
    method ResetProgress(now: nat)
      requires Valid()
      modifies this
      ensures Valid()
      ensures cards == old(cards) && currentCard == old(currentCard)
      ensures progress == InitialProgress(userId, sessionId, now)
    {
      progress := InitialProgress(userId, sessionId, now);
    }

    /**
     * importProgress: replace the progress with the migrated one from the
     * payload; a payload that did not parse or cannot be migrated fails
     * with InvalidProgressFormat and leaves the progress as it was.
     */
    method ImportProgress(payload: Option<Envelope>, now: nat) returns (outcome: Outcome<Error>)
      requires Valid()
      modifies this
      ensures Valid()
      ensures cards == old(cards) && currentCard == old(currentCard)
      ensures match Import(old(progress), payload, InitialProgress(userId, sessionId, now))
        case Failure(e) => outcome == Fail(e) && progress == old(progress)
        case Success(p) => outcome == Pass && progress == p
    {
      var imported := Import(progress, payload, InitialProgress(userId, sessionId, now));
      match imported
      case Failure(e) =>
        return Fail(e);
      case Success(p) =>
        progress := p;
        return Pass;
    }

    /** getRecommendedCards: recommendations drawn from every stored card, in catalog order. */
    method RecommendedCards(count: nat, draws: seq<real>) returns (r: seq<Card>)
      requires Valid()
      requires |cards.order| <= |draws| + 1
      requires forall k :: 0 <= k < |draws| ==> 0.0 <= draws[k] < 1.0
      ensures |r| == Min(count, |AdaptCards(Catalog.Values(cards), progress)|)
      ensures multiset(r) <= multiset(AdaptCards(Catalog.Values(cards), progress))
      ensures count >= |AdaptCards(Catalog.Values(cards), progress)| ==>
        multiset(r) == multiset(AdaptCards(Catalog.Values(cards), progress))
      ensures Distinct(r)
      ensures forall card :: card in r ==> card.id in cards.byId && cards.byId[card.id] == card && Suits(card, progress)
    {
      var all := Catalog.Values(cards);
      r := GetRecommendedCards(all, progress, count, draws);
      DistinctSubMultiset(r, all);
      forall card | card in r
        ensures card.id in cards.byId && cards.byId[card.id] == card
      {
        Catalog.ValuesAreTheCards(cards, card);
      }
    }
  }
}
