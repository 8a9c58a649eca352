/**
 * The card catalog: the engine's map from card id to card, loaded in
 * batches through the validation gate, and its two read-only queries,
 * search and filter.
 */
module Catalog {
  import opened Wrappers
  import opened Domain
  import opened Seqs

  /**
   * Cards by id, with the order in which each id was first inserted: a
   * JavaScript Map keeps an overwritten key at its first position, and the
   * engine lists its cards in that order.
   */
  datatype Catalog = Catalog(byId: map<CardId, Card>, order: seq<CardId>)

  const Empty: Catalog := Catalog(map[], [])

  ghost predicate Valid(c: Catalog) {
    && Distinct(c.order)
    && (forall id :: id in c.byId <==> id in c.order)
    && (forall id :: id in c.byId ==> c.byId[id].id == id && WellFormedCard(c.byId[id]))
  }

  /** The cards in insertion order (Array.from(map.values())). */
  function Values(c: Catalog): (r: seq<Card>)
    requires Valid(c)
    ensures |r| == |c.order|
    ensures forall i :: 0 <= i < |r| ==> r[i] == c.byId[c.order[i]]
    ensures Distinct(r)
  {
    seq(|c.order|, i requires 0 <= i < |c.order| => c.byId[c.order[i]])
  }

  /** The listing holds exactly the cards of the map. */
  lemma ValuesAreTheCards(c: Catalog, card: Card)
    requires Valid(c)
    ensures card in Values(c) <==> card.id in c.byId && c.byId[card.id] == card
  {
    var vs := Values(c);
    if card.id in c.byId && c.byId[card.id] == card {
      var i :| 0 <= i < |c.order| && c.order[i] == card.id;
      assert vs[i] == card;
    }
  }

  /** Map.set: insert or overwrite, keeping the first insertion position. */
  function Upsert(c: Catalog, card: Card): (r: Catalog)
    ensures card.id in r.byId && r.byId[card.id] == card
    ensures forall id :: id != card.id ==>
      (id in r.byId <==> id in c.byId) && (id in c.byId ==> r.byId[id] == c.byId[id])
    ensures c.order <= r.order && |r.order| == |c.order| + (if card.id in c.byId then 0 else 1)
    ensures card.id !in c.byId ==> r.order[|c.order|] == card.id
    ensures Valid(c) && WellFormedCard(card) ==> Valid(r)
  {
    Catalog(c.byId[card.id := card], if card.id in c.byId then c.order else c.order + [card.id])
  }

  /**
   * The loop of loadCards: validate each input in turn and upsert it; the
   * first invalid input stops the loop with its error, and what was upserted
   * before it stays.
   */
  function Load(c: Catalog, batch: seq<CardInput>): (r: (Catalog, Outcome<Error>))
    ensures Valid(c) ==> Valid(r.0)
    ensures r.1.Pass? <==> forall i :: 0 <= i < |batch| ==> ValidateCard(batch[i]).Success?
    decreases |batch|
  {
    if batch == [] then (c, Pass)
    else
      match ValidateCard(batch[0])
      case Failure(e) => (c, Fail(e))
      case Success(card) =>
        var r := Load(Upsert(c, card), batch[1..]);
        assert forall i :: 1 <= i < |batch| ==> batch[i] == batch[1..][i - 1];
        r
  }

  /**
   * Validation is per item: a batch whose item k is the first invalid one
   * loads exactly the items before k and fails with item k's error.
   */
  lemma {:induction false} LoadStopsAtFirstInvalid(c: Catalog, batch: seq<CardInput>, k: nat)
    requires k < |batch|
    requires forall i :: 0 <= i < k ==> ValidateCard(batch[i]).Success?
    requires ValidateCard(batch[k]).Failure?
    ensures Load(c, batch) == (Load(c, batch[..k]).0, Fail(ValidateCard(batch[k]).error))
    decreases k
  {
    if k > 0 {
      var card := ValidateCard(batch[0]).value;
      assert batch[1..][..k - 1] == batch[..k][1..];
      LoadStopsAtFirstInvalid(Upsert(c, card), batch[1..], k - 1);
    }
  }

  /** The last input of the batch with the given id, if any. */
  function LastWithId(batch: seq<CardInput>, id: CardId): (r: Option<CardInput>)
    ensures r.Some? ==> r.value in batch && r.value.id == id
    ensures r.Some? ==> exists i :: 0 <= i < |batch| && batch[i] == r.value &&
                                    forall j :: i < j < |batch| ==> batch[j].id != id
    ensures r.None? ==> forall i :: 0 <= i < |batch| ==> batch[i].id != id
  {
    if batch == [] then None
    else
      var rest := LastWithId(batch[1..], id);
      if rest.Some? then
        assert exists i :: 0 <= i < |batch| && batch[i] == rest.value &&
                           forall j :: i < j < |batch| ==> batch[j].id != id by {
          var k :| 0 <= k < |batch[1..]| && batch[1..][k] == rest.value &&
                   forall j :: k < j < |batch[1..]| ==> batch[1..][j].id != id;
          assert forall j :: k + 1 < j < |batch| ==> batch[j] == batch[1..][j - 1];
        }
        rest
      else if batch[0].id == id then
        assert forall j :: 0 < j < |batch| ==> batch[j] == batch[1..][j - 1];
        Some(batch[0])
      else None
  }

  /**
   * Upsert by id, last write wins: after a batch that loads completely, an id
   * maps to the last card of the batch with that id, and ids the batch does
   * not mention keep what they had.
   */
  lemma {:induction false} LoadLastWriteWins(c: Catalog, batch: seq<CardInput>, id: CardId)
    requires forall i :: 0 <= i < |batch| ==> ValidateCard(batch[i]).Success?
    ensures var out := Load(c, batch).0;
      match LastWithId(batch, id)
      case Some(input) => id in out.byId && ToInput(out.byId[id]) == input
      case None => (id in out.byId <==> id in c.byId) && (id in c.byId ==> out.byId[id] == c.byId[id])
    decreases |batch|
  {
    if batch != [] {
      var card := ValidateCard(batch[0]).value;
      LoadLastWriteWins(Upsert(c, card), batch[1..], id);
    }
  }

  ghost predicate InBatch(batch: seq<CardInput>, id: CardId) {
    exists i :: 0 <= i < |batch| && batch[i].id == id
  }

  /** Id `x` occurs in the batch before any occurrence of id `y`. */
  ghost predicate IdBefore(batch: seq<CardInput>, x: CardId, y: CardId) {
    exists n :: 0 <= n < |batch| && batch[n].id == x && forall m :: 0 <= m <= n ==> batch[m].id != y
  }

  /**
   * `order` is `before` followed by the ids of the batch that `before` lacks,
   * each once, in the order of their first occurrence in the batch.
   */
  ghost predicate AppendsNewIds(before: seq<CardId>, batch: seq<CardInput>, order: seq<CardId>) {
    && before <= order
    && (forall id :: id in order[|before|..] <==> id !in before && InBatch(batch, id))
    && (forall i, j :: |before| <= i < j < |order| ==> IdBefore(batch, order[i], order[j]))
  }

  /**
   * Listing order after a batch that loads completely: the old order, then
   * the batch's new ids in the order of their first occurrence (a re-used id
   * keeps its first position).
   */
  lemma {:induction false} LoadOrder(c: Catalog, batch: seq<CardInput>)
    requires Valid(c)
    requires forall i :: 0 <= i < |batch| ==> ValidateCard(batch[i]).Success?
    ensures AppendsNewIds(c.order, batch, Load(c, batch).0.order)
    decreases |batch|
  {
    var out := Load(c, batch).0;
    if batch == [] {
      assert out.order[|c.order|..] == [];
    } else {
      var card := ValidateCard(batch[0]).value;
      var next := Upsert(c, card);
      assert card.id == batch[0].id;
      assert next.order == if batch[0].id in c.order then c.order else c.order + [batch[0].id];
      LoadOrder(next, batch[1..]);
      AppendsStep(c.order, next.order, batch, out.order);
    }
  }

  /** One step of LoadOrder: the first input's id is placed, then the rest follow. */
  lemma AppendsStep(before: seq<CardId>, mid: seq<CardId>, batch: seq<CardInput>, order: seq<CardId>)
    requires batch != []
    requires mid == if batch[0].id in before then before else before + [batch[0].id]
    requires AppendsNewIds(mid, batch[1..], order)
    requires Distinct(order)
    ensures AppendsNewIds(before, batch, order)
  {
    assert before <= order by { assert order[..|before|] == mid[..|before|]; }
    AppendsStepMembers(before, mid, batch, order);
    AppendsStepOrdered(before, mid, batch, order);
  }

  /** The ids after `before` are the first input's id, if new, and then the rest's new ids. */
  lemma AppendsStepMembers(before: seq<CardId>, mid: seq<CardId>, batch: seq<CardInput>, order: seq<CardId>)
    requires batch != []
    requires mid == if batch[0].id in before then before else before + [batch[0].id]
    requires mid <= order
    requires forall id :: id in order[|mid|..] <==> id !in mid && InBatch(batch[1..], id)
    ensures forall id :: id in order[|before|..] <==> id !in before && InBatch(batch, id)
  {
    var k := batch[0].id;
    assert order[|before|..] == mid[|before|..] + order[|mid|..];
    forall id ensures id in order[|before|..] <==> id !in before && InBatch(batch, id) {
      if id in order[|mid|..] {
        var i :| 0 <= i < |batch[1..]| && batch[1..][i].id == id;
        assert batch[i + 1].id == id;
      }
      if id !in before && InBatch(batch, id) && id != k {
        var i :| 0 <= i < |batch| && batch[i].id == id;
        assert batch[1..][i - 1].id == id;
        assert InBatch(batch[1..], id);
      }
    }
  }

  /** The first input's id, if new, comes before every id the rest of the batch adds. */
  lemma AppendsStepOrdered(before: seq<CardId>, mid: seq<CardId>, batch: seq<CardInput>, order: seq<CardId>)
    requires batch != []
    requires mid == if batch[0].id in before then before else before + [batch[0].id]
    requires mid <= order
    requires Distinct(order)
    requires forall i, j :: |mid| <= i < j < |order| ==> IdBefore(batch[1..], order[i], order[j])
    ensures forall i, j :: |before| <= i < j < |order| ==> IdBefore(batch, order[i], order[j])
  {
    var k := batch[0].id;
    var p :| 0 <= p < |mid| && order[p] == k;
    forall i, j | |before| <= i < j < |order| ensures IdBefore(batch, order[i], order[j]) {
      assert order[j] != k by { assert p != j; }
      if i < |mid| {
        assert order[i] == k;
      } else {
        IdBeforeRest(batch, order[i], order[j]);
      }
    }
  }

  /** An id that precedes `y` in the rest of the batch precedes it in the batch, unless `y` comes first. */
  lemma IdBeforeRest(batch: seq<CardInput>, x: CardId, y: CardId)
    requires batch != [] && batch[0].id != y
    requires IdBefore(batch[1..], x, y)
    ensures IdBefore(batch, x, y)
  {
    var n :| 0 <= n < |batch[1..]| && batch[1..][n].id == x &&
             forall m :: 0 <= m <= n ==> batch[1..][m].id != y;
    assert batch[n + 1].id == x;
    forall m | 0 <= m <= n + 1 ensures batch[m].id != y {
      if m > 0 { assert batch[m] == batch[1..][m - 1]; }
    }
  }

  /** Loading N valid cards with fresh, distinct ids adds N entries. */
  lemma {:induction false} LoadDistinctGrows(c: Catalog, batch: seq<CardInput>)
    requires forall i :: 0 <= i < |batch| ==> ValidateCard(batch[i]).Success?
    requires forall i, j :: 0 <= i < j < |batch| ==> batch[i].id != batch[j].id
    requires forall i :: 0 <= i < |batch| ==> batch[i].id !in c.byId
    ensures |Load(c, batch).0.order| == |c.order| + |batch|
    ensures |Load(c, batch).0.byId| == |c.byId| + |batch|
    decreases |batch|
  {
    if batch != [] {
      var card := ValidateCard(batch[0]).value;
      var next := Upsert(c, card);
      assert next.byId.Keys == c.byId.Keys + {card.id};
      forall i | 0 <= i < |batch[1..]| ensures batch[1..][i].id !in next.byId {
        assert batch[1..][i] == batch[i + 1];
      }
      LoadDistinctGrows(next, batch[1..]);
    }
  }

  // ---- search ----------------------------------------------------------

  /** ASCII lowercasing of one character. */
  function LowerChar(ch: char): char {
    if 'A' <= ch <= 'Z' then (ch as int + 32) as char else ch
  }

  function ToLowerAscii(s: string): (r: string)
    ensures |r| == |s| && forall i :: 0 <= i < |s| ==> r[i] == LowerChar(s[i])
    ensures forall i :: 0 <= i < |r| ==> !('A' <= r[i] <= 'Z')
    ensures forall i :: 0 <= i < |s| && !('A' <= s[i] <= 'Z') ==> r[i] == s[i]
  {
    seq(|s|, i requires 0 <= i < |s| => LowerChar(s[i]))
  }

  lemma ToLowerIdempotent(s: string)
    ensures ToLowerAscii(ToLowerAscii(s)) == ToLowerAscii(s)
  {
  }

  ghost predicate OccursAt(text: string, term: string, i: nat) {
    i + |term| <= |text| && text[i..i + |term|] == term
  }

  /** String.prototype.includes: `term` occurs in `text` at some position. */
  function Includes(text: string, term: string): (r: bool)
    ensures r <==> exists i: nat :: OccursAt(text, term, i)
    decreases |text|
  {
    if |term| > |text| then false
    else if text[..|term|] == term then
      assert OccursAt(text, term, 0);
      true
    else
      var rest := Includes(text[1..], term);
      assert forall i: nat :: OccursAt(text[1..], term, i) <==> OccursAt(text, term, i + 1) by {
        forall i: nat ensures OccursAt(text[1..], term, i) <==> OccursAt(text, term, i + 1) {
          if i + 1 + |term| <= |text| {
            assert text[1..][i..i + |term|] == text[i + 1..i + 1 + |term|];
          }
        }
      }
      assert rest ==> exists i: nat :: OccursAt(text, term, i) by {
        if rest {
          var i: nat :| OccursAt(text[1..], term, i);
          assert OccursAt(text, term, i + 1);
        }
      }
      assert (exists i: nat :: OccursAt(text, term, i)) ==> rest by {
        if exists i: nat :: OccursAt(text, term, i) {
          var i: nat :| OccursAt(text, term, i);
          assert i != 0;
          assert OccursAt(text[1..], term, i - 1);
        }
      }
      rest
  }

  /** A card matches a lowercased term in its title, its description or one of its tags. */
  predicate MatchesTerm(card: Card, term: string) {
    || Includes(ToLowerAscii(card.scenario.title), term)
    || Includes(ToLowerAscii(card.scenario.description), term)
    || exists tag :: tag in card.tags && Includes(ToLowerAscii(tag), term)
  }

  /** searchCards: case-insensitive substring search, in catalog order. */
  function Search(c: Catalog, query: string): (r: seq<Card>)
    requires Valid(c)
    ensures forall card :: card in r <==> card in Values(c) && MatchesTerm(card, ToLowerAscii(query))
    ensures IsSubsequence(r, Values(c))
  {
    Filter(Values(c), card => MatchesTerm(card, ToLowerAscii(query)))
  }

  /** The query's case does not matter. */
  lemma SearchIgnoresQueryCase(c: Catalog, query: string)
    requires Valid(c)
    ensures Search(c, query) == Search(c, ToLowerAscii(query))
  {
    ToLowerIdempotent(query);
  }

  /** The empty query matches every card. */
  lemma SearchEmptyQueryListsAll(c: Catalog)
    requires Valid(c)
    ensures Search(c, "") == Values(c)
  {
    var term := ToLowerAscii("");
    forall card | card in Values(c) ensures MatchesTerm(card, term) {
      assert OccursAt(ToLowerAscii(card.scenario.title), term, 0);
    }
    FilterKeepsAll(Values(c), card => MatchesTerm(card, term));
  }

  // ---- filter ----------------------------------------------------------

  /** The optional criteria of filterCards; an absent criterion does not filter. */
  datatype Filters = Filters(
    categories: Option<seq<Category>>,
    difficulties: Option<seq<Difficulty>>,
    tags: Option<seq<string>>,
    completed: Option<bool>,
    bookmarked: Option<bool>)

  const NoFilters: Filters := Filters(None, None, None, None, None)

  predicate PassesFilters(card: Card, f: Filters, completedItems: set<CardId>, bookmarkedCards: set<CardId>) {
    && (f.categories.Some? ==> card.category in f.categories.value)
    && (f.difficulties.Some? ==> card.difficulty in f.difficulties.value)
    && (f.tags.Some? ==> exists tag :: tag in f.tags.value && tag in card.tags)
    && (f.completed.Some? ==> f.completed.value == (card.id in completedItems))
    && (f.bookmarked.Some? ==> f.bookmarked.value == (card.id in bookmarkedCards))
  }

  /** filterCards: the cards meeting every given criterion, in catalog order. */
  function FilterCards(c: Catalog, f: Filters, completedItems: set<CardId>, bookmarkedCards: set<CardId>): (r: seq<Card>)
    requires Valid(c)
    ensures forall card :: card in r <==> card in Values(c) && PassesFilters(card, f, completedItems, bookmarkedCards)
    ensures IsSubsequence(r, Values(c))
  {
    Filter(Values(c), card => PassesFilters(card, f, completedItems, bookmarkedCards))
  }

  /** Without criteria, filterCards lists the whole catalog. */
  lemma FilterWithoutCriteriaListsAll(c: Catalog, completedItems: set<CardId>, bookmarkedCards: set<CardId>)
    requires Valid(c)
    ensures FilterCards(c, NoFilters, completedItems, bookmarkedCards) == Values(c)
  {
    FilterKeepsAll(Values(c), card => PassesFilters(card, NoFilters, completedItems, bookmarkedCards));
  }
}
