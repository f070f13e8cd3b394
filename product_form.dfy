/**
 * The settings screen's "add product" handler, the store's one producer of
 * cards: it adds a card only when all three fields are filled, and it picks
 * the new card's id itself. As written, the id is one more than the length of
 * the list, which repeats an id once a card has been deleted; the corrected
 * id is one more than the largest id in the list.
 */
module ProductForm {
  import opened Cards
  import opened ProductsContext

  /** The three text inputs of the settings screen: name, room (comodo) and type (tipo). */
  datatype Form = Form(name: string, comodo: string, tipo: string)

  /** The handler's gate: every field is non-empty. */
  predicate Filled(form: Form)
  {
    form.name != "" && form.comodo != "" && form.tipo != ""
  }

  /** The id the handler gives a new card as written: one more than the number of cards. */
  function NextIdAsWritten(cards: seq<Card>): (id: int)
  {
    |cards| + 1
  }

  /** The list after submitting the form, with the id chosen as written. */
  function SubmitAsWritten(cards: seq<Card>, form: Form): (r: seq<Card>)
  {
    if Filled(form) then cards + [Card(NextIdAsWritten(cards), form.name, form.comodo, form.tipo)]
    else cards
  }

  /**
   * As written, ids repeat: add A, add B, delete A's id, add C. C gets B's id,
   * so the list holds two cards with id 2, and deleting C deletes B as well.
   */
  lemma AsWrittenRepeatsId()
    ensures var added := SubmitAsWritten(SubmitAsWritten([], Form("A", "Sala", "Luz")), Form("B", "Sala", "Luz"));
            var readded := SubmitAsWritten(WithoutId(added, 1), Form("C", "Quarto", "Luz"));
            readded == [Card(2, "B", "Sala", "Luz"), Card(2, "C", "Quarto", "Luz")]
            && !UniqueIds(readded)
            && WithoutId(readded, 2) == []
  {
    var added := SubmitAsWritten(SubmitAsWritten([], Form("A", "Sala", "Luz")), Form("B", "Sala", "Luz"));
    assert added == [Card(1, "A", "Sala", "Luz"), Card(2, "B", "Sala", "Luz")];
    assert WithoutId(added, 1) == [Card(2, "B", "Sala", "Luz")];
    var readded := SubmitAsWritten(WithoutId(added, 1), Form("C", "Quarto", "Luz"));
    assert readded[0].id == readded[1].id;
  }

  /** One more than the largest id in the list, and 1 for an empty list: an id that no card carries. */
  function NextId(cards: seq<Card>): (id: int)
    ensures id >= 1
    ensures forall c :: c in cards ==> c.id < id
  {
    if cards == [] then 1
    else
      var prefix, last := cards[..|cards| - 1], cards[|cards| - 1];
      assert cards == prefix + [last];
      var n := NextId(prefix);
      if last.id >= n then last.id + 1 else n
  }

  /** While no card has been deleted (ids are 1, 2, ..., n in order), the corrected id is the one chosen as written. */
  lemma {:induction false} NextIdAgreesWhileDense(cards: seq<Card>)
    requires forall i :: 0 <= i < |cards| ==> cards[i].id == i + 1
    ensures NextId(cards) == NextIdAsWritten(cards)
  {
    if cards != [] {
      NextIdAgreesWhileDense(cards[..|cards| - 1]);
    }
  }

  /** The list after submitting the form, with the corrected id. */
  function Submit(cards: seq<Card>, form: Form): (r: seq<Card>)
  {
    if Filled(form) then cards + [Card(NextId(cards), form.name, form.comodo, form.tipo)]
    else cards
  }

  /**
   * Submitting adds one card exactly when the form is filled, never disturbs
   * the cards already there, and keeps ids unique.
   */
  lemma {:induction false} SubmitKeepsUniqueIds(cards: seq<Card>, form: Form)
    requires UniqueIds(cards)
    ensures UniqueIds(Submit(cards, form))
    ensures |Submit(cards, form)| == |cards| + 1 <==> Filled(form)
    ensures Submit(cards, form)[..|cards|] == cards
  {
    if Filled(form) {
      AppendFreshKeepsUnique(cards, Card(NextId(cards), form.name, form.comodo, form.tipo));
    }
  }

  /**
   * Deleting the id the submit picked restores the list as it was: a filled
   * form's new card is the only one carrying that id, and an unfilled form
   * added nothing.
   */
  lemma DeleteSubmittedRestores(cards: seq<Card>, form: Form)
    ensures WithoutId(Submit(cards, form), NextId(cards)) == cards
  {
    if Filled(form) {
      AppendThenWithoutId(cards, Card(NextId(cards), form.name, form.comodo, form.tipo), NextId(cards));
    }
    NoMatchKeepsAll(cards, NextId(cards));
  }

  /** The settings screen's handler, with the corrected id: a filled form adds one card through the store. */
  method AddCardHandler(store: ProductsStore, form: Form)
    modifies store
    ensures store.cards == Submit(old(store.cards), form)
  {
    if Filled(form) {
      var card := Card(NextId(store.cards), form.name, form.comodo, form.tipo);
      store.AddCard(card);
    }
  }
}
