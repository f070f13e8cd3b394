/**
 * The products store: the provider's list of cards with its three mutations
 * (addCard, deleteCard, setCards) and the guard that hands the store to a
 * screen only when a provider supplies it.
 */
module ProductsContext {
  import opened Cards
  import opened Wrappers

  /** The message the guard fails with when no provider is present. */
  const MisuseMessage: string := "useProductsContext must be used within a ProductsProvider"

  /** The provider's state: the ordered list of cards every screen reads. */
  class ProductsStore {
    var cards: seq<Card>

    /** A provider starts with an empty list. */
    constructor ()
      ensures cards == []
    {
      cards := [];
    }

    /** Appends the card at the end, with no validation and no id de-duplication. */
    method AddCard(card: Card)
      modifies this
      ensures cards == old(cards) + [card]
      ensures |cards| == |old(cards)| + 1 && cards[|cards| - 1] == card
      ensures cards[..|old(cards)|] == old(cards)
      ensures CountId(cards, card.id) == CountId(old(cards), card.id) + 1
    {
      AppendCountsId(cards, card);
      cards := cards + [card];
    }

    /** Removes every card whose id is `id`, keeping the others in order; a missing id changes nothing. */
    method DeleteCard(id: int)
      modifies this
      ensures cards == WithoutId(old(cards), id)
      ensures forall c :: c in cards <==> c in old(cards) && c.id != id
      ensures |cards| == |old(cards)| - CountId(old(cards), id)
      ensures (forall c :: c in old(cards) ==> c.id != id) ==> cards == old(cards)
    {
      WithoutIdMembership(cards, id);
      WithoutIdLength(cards, id);
      WithoutIdUnchanged(cards, id);
      cards := WithoutId(cards, id);
    }

    /** Replaces the whole list with `xs`. */
    method SetCards(xs: seq<Card>)
      modifies this
      ensures cards == xs
    {
      cards := xs;
    }
  }

  /**
   * The guard a screen calls to reach the store: the store when a provider
   * supplies one, otherwise the misuse error.
   */
  function UseProductsContext(context: Option<ProductsStore>): (r: Result<ProductsStore, string>)
    ensures r.Failure? <==> context.None?
    ensures r.Failure? ==> r.error == MisuseMessage
    ensures r.Success? ==> r.value == context.value
  {
    match context
    case None => Failure(MisuseMessage)
    case Some(store) => Success(store)
  }

  /**
   * A fresh store, one card added and then deleted by its id: the list holds
   * exactly that card in between and is empty at the end.
   */
  method AddThenDeleteScenario() returns (between: seq<Card>, after: seq<Card>)
    ensures between == [Card(1, "Lampada", "Sala", "Iluminação")]
    ensures after == []
  {
    var store := new ProductsStore();
    store.AddCard(Card(1, "Lampada", "Sala", "Iluminação"));
    between := store.cards;
    store.DeleteCard(1);
    after := store.cards;
  }

  /** Two cards added in order, then the first deleted: only the second remains. */
  method DeleteFirstOfTwoScenario(first: Card, second: Card) returns (between: seq<Card>, after: seq<Card>)
    requires first.id != second.id
    ensures between == [first, second]
    ensures after == [second]
  {
    var store := new ProductsStore();
    store.AddCard(first);
    store.AddCard(second);
    between := store.cards;
    store.DeleteCard(first.id);
    after := store.cards;
  }
}
