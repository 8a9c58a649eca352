/**
 * migrateProgress: rebuilding a progress record from a saved one, with
 * defaults from a fresh record for every missing field, and the import and
 * export envelope around it.
 */
module Migration {
  import opened Wrappers
  import opened Domain
  import opened Seqs
  import opened ProgressRules

  /**
   * How a Set- or Map-valued field of a saved record arrives: missing, as an
   * array (of entries, for a Map), or as a plain object, which is what
   * JSON.stringify writes for a Set or a Map.
   */
  datatype Collection<T> = Missing | Items(items: seq<T>) | PlainObject

  /** A saved progress record as parsed; every field may be missing. */
  datatype SavedProgress = SavedProgress(
    userId: Option<string>,
    sessionId: Option<string>,
    startTime: Option<nat>,
    lastActivity: Option<nat>,
    totalTimeSpent: Option<nat>,
    completedItems: Collection<CardId>,
    correctAnswers: Option<nat>,
    totalAttempts: Option<nat>,
    currentStreak: Option<nat>,
    bestStreak: Option<nat>,
    attempts: Collection<(CardId, seq<Attempt>)>,
    bookmarkedCards: Collection<CardId>,
    masteredCards: Collection<CardId>,
    currentDifficulty: Option<Difficulty>,
    categoryProgress: Collection<(Category, CategoryStats)>)

  const NothingSaved: SavedProgress :=
    SavedProgress(None, None, None, None, None, Missing, None, None, None, None, Missing, Missing, Missing, None, Missing)

  function OrElse<T>(o: Option<T>, default: T): T {
    if o.Some? then o.value else default
  }

  /** The items of `new Set(field || [])`; a plain object is not iterable. */
  function ItemsOf<T>(col: Collection<T>): seq<T>
    requires !col.PlainObject?
  {
    if col.Items? then col.items else []
  }

  /**
   * new Map(entries): a later entry overwrites the value of an earlier one
   * with the same key, and the key keeps its first position.
   */
  function MapFromEntries(es: seq<(CardId, seq<Attempt>)>): (r: (map<CardId, seq<Attempt>>, seq<CardId>))
    ensures Distinct(r.1) && forall id :: id in r.0 <==> id in r.1
    ensures LastWins(es, r.0)
    ensures FirstOccurrenceOrder(es, r.1)
  {
    if es == [] then (map[], [])
    else
      var prefix := es[..|es| - 1];
      var (m, order) := MapFromEntries(prefix);
      var (k, v) := es[|es| - 1];
      assert es == prefix + [(k, v)];
      EntryAdded(prefix, k, v, m, order);
      (m[k := v], if k in m then order else order + [k])
  }

  /** Entry `i` is the last entry of `es` with key `k`, and its value is `v`. */
  ghost predicate LastEntry<K, V>(es: seq<(K, V)>, k: K, v: V) {
    exists i :: 0 <= i < |es| && es[i] == (k, v) && forall j :: i < j < |es| ==> es[j].0 != k
  }

  /** Every key of `es` is in `m`, with the value of its last entry. */
  ghost predicate LastWins<K, V>(es: seq<(K, V)>, m: map<K, V>) {
    && (forall i :: 0 <= i < |es| ==> es[i].0 in m)
    && forall k :: k in m ==> LastEntry(es, k, m[k])
  }

  /** Key `x` occurs in `es` before the first occurrence of key `y`. */
  ghost predicate OccursBefore(es: seq<(CardId, seq<Attempt>)>, x: CardId, y: CardId) {
    exists n :: 0 <= n < |es| && es[n].0 == x && forall m :: 0 <= m <= n ==> es[m].0 != y
  }

  /** The keys are listed in the order of their first occurrence in `es`. */
  ghost predicate FirstOccurrenceOrder(es: seq<(CardId, seq<Attempt>)>, order: seq<CardId>) {
    forall i, j :: 0 <= i < j < |order| ==> OccursBefore(es, order[i], order[j])
  }

  lemma LastEntryGrows<K, V>(es: seq<(K, V)>, k: K, v: V, e: (K, V))
    requires LastEntry(es, k, v) && e.0 != k
    ensures LastEntry(es + [e], k, v)
  {
    var i :| 0 <= i < |es| && es[i] == (k, v) && forall j :: i < j < |es| ==> es[j].0 != k;
    assert (es + [e])[i] == (k, v);
  }

  /** An entry added last wins for its key; the other keys keep their last entries. */
  lemma LastWinsGrows<K, V>(es: seq<(K, V)>, m: map<K, V>, k: K, v: V)
    requires LastWins(es, m)
    ensures LastWins(es + [(k, v)], m[k := v])
  {
    var es' := es + [(k, v)];
    var m' := m[k := v];
    forall id | id in m' ensures LastEntry(es', id, m'[id]) {
      if id == k {
        assert es'[|es|] == (k, v);
      } else {
        LastEntryGrows(es, id, m[id], (k, v));
      }
    }
    forall i | 0 <= i < |es'| ensures es'[i].0 in m' {
      if i < |es| {
        assert es'[i] == es[i];
      }
    }
  }

  lemma OccursBeforeGrows(es: seq<(CardId, seq<Attempt>)>, x: CardId, y: CardId, e: (CardId, seq<Attempt>))
    requires OccursBefore(es, x, y)
    ensures OccursBefore(es + [e], x, y)
  {
    var n :| 0 <= n < |es| && es[n].0 == x && forall m :: 0 <= m <= n ==> es[m].0 != y;
    assert (es + [e])[n].0 == x;
  }

  lemma OccursBeforeNewKey(es: seq<(CardId, seq<Attempt>)>, x: CardId, v: seq<Attempt>, e: (CardId, seq<Attempt>))
    requires LastEntry(es, x, v)
    requires forall i :: 0 <= i < |es| ==> es[i].0 != e.0
    ensures OccursBefore(es + [e], x, e.0)
  {
    var n :| 0 <= n < |es| && es[n] == (x, v) && forall j :: n < j < |es| ==> es[j].0 != x;
    assert (es + [e])[n].0 == x;
  }

  /** One more entry keeps the keys distinct, the last value winning and the first-occurrence order. */
  lemma EntryAdded(es: seq<(CardId, seq<Attempt>)>, k: CardId, v: seq<Attempt>,
                   m: map<CardId, seq<Attempt>>, order: seq<CardId>)
    requires Distinct(order) && forall id :: id in m <==> id in order
    requires LastWins(es, m) && FirstOccurrenceOrder(es, order)
    ensures var order' := if k in m then order else order + [k];
      && Distinct(order') && (forall id :: id in m[k := v] <==> id in order')
      && LastWins(es + [(k, v)], m[k := v])
      && FirstOccurrenceOrder(es + [(k, v)], order')
  {
    var es' := es + [(k, v)];
    var order' := if k in m then order else order + [k];
    LastWinsGrows(es, m, k, v);
    forall i, j | 0 <= i < j < |order'| ensures OccursBefore(es', order'[i], order'[j]) {
      if j < |order| {
        OccursBeforeGrows(es, order[i], order[j], (k, v));
      } else {
        OccursBeforeNewKey(es, order[i], m[order[i]], (k, v));
      }
    }
  }

  /** new Map(entries) for the category statistics. */
  function CategoryMapFromEntries(es: seq<(Category, CategoryStats)>): map<Category, CategoryStats> {
    if es == [] then map[]
    else CategoryMapFromEntries(es[..|es| - 1])[es[|es| - 1].0 := es[|es| - 1].1]
  }

  /** Every category of the entries is in the map, with the statistics of its last entry. */
  lemma {:induction false} CategoryMapLastWins(es: seq<(Category, CategoryStats)>)
    ensures LastWins(es, CategoryMapFromEntries(es))
    decreases |es|
  {
    if es != [] {
      var prefix := es[..|es| - 1];
      assert es == prefix + [es[|es| - 1]];
      CategoryMapLastWins(prefix);
      LastWinsGrows(prefix, CategoryMapFromEntries(prefix), es[|es| - 1].0, es[|es| - 1].1);
    }
  }

  predicate Iterable(saved: SavedProgress) {
    && !saved.completedItems.PlainObject?
    && !saved.bookmarkedCards.PlainObject?
    && !saved.masteredCards.PlainObject?
    && !saved.attempts.PlainObject?
    && !saved.categoryProgress.PlainObject?
  }

  /**
   * migrateProgress: every field present in the saved record overrides the
   * fresh one; the collections are rebuilt from arrays, a missing one being
   * empty. None when a collection is not iterable, where the engine's Set
   * or Map constructor throws.
   */
  function Migrate(saved: SavedProgress, defaults: Progress): (r: Option<Progress>)
    ensures r.Some? <==> Iterable(saved)
    ensures r.Some? ==> Shaped(r.value)
  {
    if !Iterable(saved) then None
    else
      var (attempts, order) := MapFromEntries(ItemsOf(saved.attempts));
      Some(Progress(
        OrElse(saved.userId, defaults.userId),
        OrElse(saved.sessionId, defaults.sessionId),
        OrElse(saved.startTime, defaults.startTime),
        OrElse(saved.lastActivity, defaults.lastActivity),
        OrElse(saved.totalTimeSpent, defaults.totalTimeSpent),
        (set id | id in ItemsOf(saved.completedItems)),
        OrElse(saved.correctAnswers, defaults.correctAnswers),
        OrElse(saved.totalAttempts, defaults.totalAttempts),
        OrElse(saved.currentStreak, defaults.currentStreak),
        OrElse(saved.bestStreak, defaults.bestStreak),
        attempts,
        order,
        (set id | id in ItemsOf(saved.bookmarkedCards)),
        (set id | id in ItemsOf(saved.masteredCards)),
        OrElse(saved.currentDifficulty, defaults.currentDifficulty),
        CategoryMapFromEntries(ItemsOf(saved.categoryProgress))))
  }

  /** With nothing saved, migration gives the fresh record. */
  lemma MigrateNothingIsFresh(userId: string, sessionId: string, now: nat)
    ensures Migrate(NothingSaved, InitialProgress(userId, sessionId, now)) == Some(InitialProgress(userId, sessionId, now))
  {
    var defaults := InitialProgress(userId, sessionId, now);
    var r := Migrate(NothingSaved, defaults).value;
    assert (set id: CardId | id in ItemsOf(NothingSaved.completedItems)) == {};
    assert r.completedItems == {} && r.bookmarkedCards == {} && r.masteredCards == {};
  }

  /**
   * Migration keeps saved counters without checking them against the saved
   * history: counters saved without any attempts make a record whose total
   * disagrees with its (empty) history.
   */
  lemma MigrateDoesNotCheckCounters(userId: string, sessionId: string, now: nat)
    ensures var saved := NothingSaved.(totalAttempts := Some(10), correctAnswers := Some(8), currentStreak := Some(3));
      var r := Migrate(saved, InitialProgress(userId, sessionId, now));
      && r.Some?
      && r.value.totalAttempts == 10 && r.value.correctAnswers == 8 && r.value.currentStreak == 3
      && !Consistent(r.value)
  {
    var saved := NothingSaved.(totalAttempts := Some(10), correctAnswers := Some(8), currentStreak := Some(3));
    var r := Migrate(saved, InitialProgress(userId, sessionId, now)).value;
    assert r.attempts == map[] && r.attemptOrder == [];
    assert SumOver(r.attempts, r.attemptOrder, Length) == 0;
  }

  // ---- the export envelope ----------------------------------------------

  /**
   * exportProgress as written: JSON.stringify writes the record's Sets and
   * Maps (completed, bookmarked and mastered cards, attempts, category
   * progress) as empty plain objects.
   */
  function ExportAsWritten(p: Progress): SavedProgress {
    SavedProgress(
      Some(p.userId), Some(p.sessionId), Some(p.startTime), Some(p.lastActivity), Some(p.totalTimeSpent),
      PlainObject, Some(p.correctAnswers), Some(p.totalAttempts), Some(p.currentStreak), Some(p.bestStreak),
      PlainObject, PlainObject, PlainObject, Some(p.currentDifficulty), PlainObject)
  }

  /** No record exported as written can be migrated back. */
  lemma ExportAsWrittenNeverImports(p: Progress, defaults: Progress)
    ensures Migrate(ExportAsWritten(p), defaults) == None
  {
  }

  ghost function SetToSeq<T(!new)>(s: set<T>): (r: seq<T>)
    ensures forall x :: x in r <==> x in s
  {
    if s == {} then []
    else
      var x :| x in s;
      [x] + SetToSeq(s - {x})
  }

  /** The entries of a Map, in its key order. */
  function Entries(m: map<CardId, seq<Attempt>>, order: seq<CardId>): (es: seq<(CardId, seq<Attempt>)>)
    requires forall id :: id in order ==> id in m
    ensures |es| == |order|
    ensures forall i :: 0 <= i < |order| ==> es[i] == (order[i], m[order[i]])
  {
    seq(|order|, i requires 0 <= i < |order| => (order[i], m[order[i]]))
  }

  /** The entries of the category map, in the order the categories are listed in `cats`. */
  function CategoryEntries(cp: map<Category, CategoryStats>, cats: seq<Category>): seq<(Category, CategoryStats)> {
    if cats == [] then []
    else
      var c := cats[|cats| - 1];
      CategoryEntries(cp, cats[..|cats| - 1]) + (if c in cp then [(c, cp[c])] else [])
  }

  /**
   * exportProgress with Sets written as arrays and Maps as arrays of entries,
   * the form migrateProgress reads back.
   */
  ghost function Export(p: Progress): SavedProgress
    requires Shaped(p)
  {
    SavedProgress(
      Some(p.userId), Some(p.sessionId), Some(p.startTime), Some(p.lastActivity), Some(p.totalTimeSpent),
      Items(SetToSeq(p.completedItems)), Some(p.correctAnswers), Some(p.totalAttempts), Some(p.currentStreak),
      Some(p.bestStreak), Items(Entries(p.attempts, p.attemptOrder)), Items(SetToSeq(p.bookmarkedCards)),
      Items(SetToSeq(p.masteredCards)), Some(p.currentDifficulty),
      Items(CategoryEntries(p.categoryProgress, AllCategories)))
  }

  /** One more entry: its key maps to its value, and a new key goes last. */
  lemma MapFromEntriesStep(es: seq<(CardId, seq<Attempt>)>, k: CardId, v: seq<Attempt>)
    ensures var (m, order) := MapFromEntries(es);
      MapFromEntries(es + [(k, v)]) == (m[k := v], if k in m then order else order + [k])
  {
    assert (es + [(k, v)])[..|es|] == es;
  }

  lemma CategoryMapStep(es: seq<(Category, CategoryStats)>, c: Category, stats: CategoryStats)
    ensures CategoryMapFromEntries(es + [(c, stats)]) == CategoryMapFromEntries(es)[c := stats]
  {
    assert (es + [(c, stats)])[..|es|] == es;
  }

  /** The restriction of `m` to the listed keys, grown by one key. */
  lemma RestrictStep(m: map<CardId, seq<Attempt>>, keys: seq<CardId>, k: CardId)
    requires k in m && forall id :: id in keys ==> id in m
    ensures (map id | id in keys :: m[id])[k := m[k]] == map id | id in keys + [k] :: m[id]
  {
  }

  lemma {:induction false} EntriesRoundTrip(m: map<CardId, seq<Attempt>>, order: seq<CardId>)
    requires Distinct(order)
    requires forall id :: id in order ==> id in m
    ensures MapFromEntries(Entries(m, order)) == (map id | id in order :: m[id], order)
    decreases |order|
  {
    if order != [] {
      var prefix := order[..|order| - 1];
      var last := order[|order| - 1];
      assert order == prefix + [last];
      assert Entries(m, order) == Entries(m, prefix) + [(last, m[last])];
      EntriesRoundTrip(m, prefix);
      MapFromEntriesStep(Entries(m, prefix), last, m[last]);
      assert last !in prefix;
      RestrictStep(m, prefix, last);
    }
  }

  /** The statistics of the listed categories that have an entry. */
  function Restrict(cp: map<Category, CategoryStats>, cats: seq<Category>): map<Category, CategoryStats> {
    map c | c in cats && c in cp :: cp[c]
  }

  lemma RestrictGrows(cp: map<Category, CategoryStats>, cats: seq<Category>, c: Category)
    ensures Restrict(cp, cats + [c]) == if c in cp then Restrict(cp, cats)[c := cp[c]] else Restrict(cp, cats)
  {
  }

  lemma {:induction false} CategoryEntriesRoundTrip(cp: map<Category, CategoryStats>, cats: seq<Category>)
    ensures CategoryMapFromEntries(CategoryEntries(cp, cats)) == Restrict(cp, cats)
    decreases |cats|
  {
    if cats != [] {
      var prefix := cats[..|cats| - 1];
      var c := cats[|cats| - 1];
      assert cats == prefix + [c];
      CategoryEntriesRoundTrip(cp, prefix);
      RestrictGrows(cp, prefix, c);
      if c in cp {
        assert CategoryEntries(cp, cats) == CategoryEntries(cp, prefix) + [(c, cp[c])];
        CategoryMapStep(CategoryEntries(cp, prefix), c, cp[c]);
      } else {
        assert CategoryEntries(cp, cats) == CategoryEntries(cp, prefix);
      }
    }
  }

  /** Exporting in the readable form and migrating back restores the record exactly. */
  lemma ExportMigrateRoundTrip(p: Progress, defaults: Progress)
    requires Shaped(p)
    ensures Migrate(Export(p), defaults) == Some(p)
  {
    AttemptsRoundTrip(p.attempts, p.attemptOrder);
    CategoriesRoundTrip(p.categoryProgress);
    SetRoundTrip(p.completedItems);
    SetRoundTrip(p.bookmarkedCards);
    SetRoundTrip(p.masteredCards);
  }

  lemma SetRoundTrip(s: set<CardId>)
    ensures (set id | id in SetToSeq(s)) == s
  {
  }

  lemma AttemptsRoundTrip(m: map<CardId, seq<Attempt>>, order: seq<CardId>)
    requires Distinct(order) && forall id :: id in m <==> id in order
    ensures MapFromEntries(Entries(m, order)) == (m, order)
  {
    EntriesRoundTrip(m, order);
    RestrictToAllKeys(m, order);
  }

  lemma RestrictToAllKeys(m: map<CardId, seq<Attempt>>, order: seq<CardId>)
    requires forall id :: id in m <==> id in order
    ensures (map id | id in order :: m[id]) == m
  {
  }

  lemma CategoriesRoundTrip(cp: map<Category, CategoryStats>)
    ensures CategoryMapFromEntries(CategoryEntries(cp, AllCategories)) == cp
  {
    CategoryEntriesRoundTrip(cp, AllCategories);
    forall c: Category ensures c in AllCategories {
      AllCategoriesListed(c);
    }
    assert Restrict(cp, AllCategories) == cp;
  }

  /** The envelope of exportProgress; a payload that did not parse is None. */
  datatype Envelope = Envelope(progress: Option<SavedProgress>, exportedAt: Option<nat>, version: Option<string>)

  /**
   * importProgress: a payload that does not parse, or whose progress cannot
   * be migrated, fails with InvalidProgressFormat; an envelope without
   * progress leaves the record as it was; otherwise the migrated record
   * replaces it.
   */
  function Import(current: Progress, payload: Option<Envelope>, defaults: Progress): (r: Result<Progress, Error>)
    ensures r.Failure? ==> r.error == InvalidProgressFormat
    ensures payload.None? ==> r == Failure(InvalidProgressFormat)
    ensures r.Success? <==>
      payload.Some? && (payload.value.progress.Some? ==> Iterable(payload.value.progress.value))
    ensures r.Success? && payload.Some? && payload.value.progress.Some? ==>
      Some(r.value) == Migrate(payload.value.progress.value, defaults)
    ensures r.Success? && !(payload.Some? && payload.value.progress.Some?) ==> r.value == current
  {
    if payload.None? then Failure(InvalidProgressFormat)
    else if payload.value.progress.None? then Success(current)
    else
      match Migrate(payload.value.progress.value, defaults)
      case None => Failure(InvalidProgressFormat)
      case Some(p) => Success(p)
  }
}
