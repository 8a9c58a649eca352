/**
 * The card side of the flip-card engine: difficulty levels, learning
 * categories, answer options, cards as they arrive from a caller and cards
 * as the catalog keeps them once they passed validation.
 */
module Domain {
  import opened Wrappers

  type CardId = string
  type OptionId = string

  /** The ordered difficulty scale beginner < intermediate < advanced < expert. */
  datatype Difficulty = Beginner | Intermediate | Advanced | Expert {
    function Rank(): nat {
      match this
      case Beginner => 0
      case Intermediate => 1
      case Advanced => 2
      case Expert => 3
    }
  }

  /** The scale as the engine lists it when it looks a level up by position. */
  const Levels: seq<Difficulty> := [Beginner, Intermediate, Advanced, Expert]

  /** The learning categories of the engine's default configuration. */
  datatype Category = Fundamentos | Estrategia | Contenido | Networking | Herramientas

  const AllCategories: seq<Category> := [Fundamentos, Estrategia, Contenido, Networking, Herramientas]

  lemma AllCategoriesListed(c: Category)
    ensures c in AllCategories
  {
  }

  datatype Scenario = Scenario(title: string, description: string)

  datatype AnswerOption = AnswerOption(id: OptionId, text: string, feedback: string, isCorrect: bool)

  /**
   * A card as a caller hands it to the engine: any field may be missing.
   * A missing or empty id is the empty string.
   */
  datatype CardInput = CardInput(
    id: CardId,
    category: Category,
    difficulty: Difficulty,
    scenario: Option<Scenario>,
    options: Option<seq<AnswerOption>>,
    tags: seq<string>)

  /** A card that passed validation. */
  datatype Card = Card(
    id: CardId,
    category: Category,
    difficulty: Difficulty,
    scenario: Scenario,
    options: seq<AnswerOption>,
    tags: seq<string>)

  datatype Error =
    | InvalidCardFormat
    | NoCorrectAnswer
    | CardNotFound(cardId: CardId)
    | OptionNotFound(optionId: OptionId)
    | InvalidProgressFormat

  predicate HasCorrectAnswer(options: seq<AnswerOption>) {
    exists i :: 0 <= i < |options| && options[i].isCorrect
  }

  /** What validation guarantees of every card the catalog holds. */
  predicate WellFormedCard(card: Card) {
    card.id != "" && |card.options| > 0 && HasCorrectAnswer(card.options)
  }

  /** The card as a caller would have written it. */
  function ToInput(card: Card): CardInput {
    CardInput(card.id, card.category, card.difficulty, Some(card.scenario), Some(card.options), card.tags)
  }

  /**
   * The validation gate of loadCards: the structural check comes first and
   * has its own error, the "at least one correct option" check second.
   */
  function ValidateCard(input: CardInput): (r: Result<Card, Error>)
    ensures r.Success? <==>
      input.id != "" && input.scenario.Some? && input.options.Some? &&
      |input.options.value| > 0 && HasCorrectAnswer(input.options.value)
    ensures r.Success? ==> WellFormedCard(r.value) && ToInput(r.value) == input
    ensures r.Failure? ==> (r.error == NoCorrectAnswer <==>
      input.id != "" && input.scenario.Some? && input.options.Some? && |input.options.value| > 0)
    ensures r.Failure? ==> r.error == InvalidCardFormat || r.error == NoCorrectAnswer
  {
    if input.id == "" || input.scenario.None? || input.options.None? || |input.options.value| == 0 then
      Failure(InvalidCardFormat)
    else if !HasCorrectAnswer(input.options.value) then
      Failure(NoCorrectAnswer)
    else
      Success(Card(input.id, input.category, input.difficulty, input.scenario.value,
                   input.options.value, input.tags))
  }

  /** Every well-formed card passes validation unchanged. */
  lemma ValidateAcceptsWellFormed(card: Card)
    requires WellFormedCard(card)
    ensures ValidateCard(ToInput(card)) == Success(card)
  {
  }

  /** The first option with the given id, as Array.prototype.find returns it. */
  function FindOption(options: seq<AnswerOption>, id: OptionId): (r: Option<AnswerOption>)
    ensures r.None? <==> forall i :: 0 <= i < |options| ==> options[i].id != id
    ensures r.Some? ==> exists i :: 0 <= i < |options| && options[i] == r.value && r.value.id == id &&
                                    forall j :: 0 <= j < i ==> options[j].id != id
  {
    if options == [] then None
    else if options[0].id == id then Some(options[0])
    else
      assert forall i :: 0 <= i < |options[1..]| ==> options[1..][i] == options[i + 1];
      FindOption(options[1..], id)
  }
}
