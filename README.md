# Products store of the Projeto-IoT home-automation app

The app keeps one shared, in-memory list of product cards. Each card is a
home-automation device with an `id`, a `name`, a room (`comodo`) and a type
(`tipo`). A context provider owns the list. It starts empty and offers three
mutations:

- `addCard` appends a card.
- `deleteCard` removes every card with a given id.
- `setCards` replaces the whole list.

Screens reach the store through `useProductsContext`. It fails with a fixed
message when no provider is present.

This project models that store in Dafny and proves what its operations
promise:

- `Cards` (`cards.dfy`): the `Card` value, the pure filter behind
  `deleteCard` (`WithoutId`), and lemmas about appending and filtering.
- `ProductsContext` (`products_context.dfy`): the provider state as a class
  `ProductsStore` with a `seq<Card>` field. Its methods `AddCard`,
  `DeleteCard` and `SetCards` reassign that field. The module also holds the
  guard `UseProductsContext` and two client scenarios.
- `ProductForm` (`product_form.dfy`): the settings screen's "add product"
  handler. It is the only place that creates cards and picks their ids. It is
  modelled both as written and corrected (see Findings).
- `Wrappers` (`wrappers.dfy`): `Option` and `Result`.

The store does not require ids to be unique. `deleteCard` removes every card
carrying the id, not only the first one, because it is a `filter`. The model
follows that `filter`. "Removes exactly one" is proved only for lists whose ids are unique
(`Cards.DeleteRemovesExactlyOne`).

The detail and list screens in `src/app/(tabs)/profile.tsx:49-50` and
`:154-156` delete by calling `setCards(cards.filter(card => card.id !== id))`.
That is `SetCards(WithoutId(cards, id))`, which is the same new list that
`DeleteCard` produces.

## Model

| member | source | states |
|---|---|---|
| Cards.WithoutId | src/contexts/ProductsContext.tsx:40 | the filtered list is no longer than the original, and every card in it was in the original and carries a different id, so no card with the deleted id remains; `WithoutIdMembership` gives the converse, `WithoutIdMultiset` the exact multiplicities and `WithoutIdConcat` the order |
| Cards.WithoutIdLength | src/contexts/ProductsContext.tsx:40 | deleting removes exactly as many cards as carry the id |
| Cards.WithoutIdMultiset | src/contexts/ProductsContext.tsx:39-41 | after the filter, no copy of a card with the id remains, and every other card keeps its multiplicity: nothing else is removed |
| Cards.WithoutIdMembership | src/contexts/ProductsContext.tsx:40 | a card is in the result if and only if it was in the list and its id differs |
| Cards.WithoutIdConcat | src/contexts/ProductsContext.tsx:40 | filtering a concatenation is the concatenation of the filtered parts, so surviving cards keep their relative order |
| Cards.CountIdPositive | src/contexts/ProductsContext.tsx:40 | an id's count is positive if and only if some card carries it |
| Cards.WithoutIdUnchanged | src/contexts/ProductsContext.tsx:40-41 | the filter leaves the list equal to itself if and only if no card carries the id, so deleting a missing id is a silent no-op |
| Cards.NoMatchKeepsAll | src/contexts/ProductsContext.tsx:40 | when no card carries the id, the filter returns the list unchanged |
| Cards.WithoutIdIdempotent | src/contexts/ProductsContext.tsx:40 | deleting an id twice gives the same list as deleting it once |
| Cards.WithoutIdCommutes | src/contexts/ProductsContext.tsx:39-41 | deleting two ids gives the same list in either order |
| Cards.AppendThenWithoutId | src/contexts/ProductsContext.tsx:35-41 | deleting after an append drops the appended card if it carries the id; otherwise the card stays last, after the filtered old list |
| Cards.CountIdConcat | src/contexts/ProductsContext.tsx:36 | id counts add up over a concatenation |
| Cards.AppendCountsId | src/contexts/ProductsContext.tsx:35-37 | appending does not de-duplicate: the appended id's count grows by one even if the id is already present |
| Cards.UniqueIdsCountAtMostOne | src/contexts/ProductsContext.tsx:4-9 | in a list with unique ids, at most one card carries any given id |
| Cards.DeleteRemovesExactlyOne | src/contexts/ProductsContext.tsx:39-41 | with unique ids, deleting an id that is present shortens the list by exactly one |
| Cards.WithoutIdKeepsUnique | src/contexts/ProductsContext.tsx:40 | deleting keeps ids unique |
| Cards.AppendFreshKeepsUnique | src/contexts/ProductsContext.tsx:35-37 | appending a card whose id is new keeps ids unique |
| ProductsContext.ProductsStore.constructor | src/contexts/ProductsContext.tsx:33 | a provider starts with an empty card list |
| ProductsContext.ProductsStore.AddCard | src/contexts/ProductsContext.tsx:35-37 | the new list is the old list with the card appended at the end: the length grows by one, the old cards stay in place and in order, and the card's id count grows by one |
| ProductsContext.ProductsStore.DeleteCard | src/contexts/ProductsContext.tsx:39-42 | the new list is the filtered old list: a card remains if and only if it was there and its id differs, the length drops by the number of matching cards, and a missing id leaves the list unchanged |
| ProductsContext.ProductsStore.SetCards | src/contexts/ProductsContext.tsx:13 | the list becomes exactly the given list |
| ProductsContext.UseProductsContext | src/contexts/ProductsContext.tsx:24-30 | the guard fails if and only if no provider supplies the context, with the message "useProductsContext must be used within a ProductsProvider"; otherwise it returns that provider's store |
| ProductsContext.AddThenDeleteScenario | src/contexts/ProductsContext.tsx:33-42 | starting from an empty store, adding card 1 gives exactly that one-card list, and deleting id 1 then leaves an empty list |
| ProductsContext.DeleteFirstOfTwoScenario | src/contexts/ProductsContext.tsx:35-42 | adding two cards with different ids keeps them in call order, and deleting the first leaves exactly the second |

## Findings

| source | as written | input that shows it | evidently intended | confidence | as-written member | corrected member |
|---|---|---|---|---|---|---|
| src/app/(tabs)/settings.tsx:22 | a new card's id is `cards.length + 1` | add A (id 1), add B (id 2), delete 1, add C: C gets id 2 again, and deleting C also removes B | every card gets an id that no card in the list carries | high (derived by proof; not executed) | ProductForm.AsWrittenRepeatsId | ProductForm.SubmitKeepsUniqueIds |

The corrected id is one more than the largest id in the list (`NextId`).
While nothing has been deleted, it equals the id chosen as written
(`NextIdAgreesWhileDense`).

The members of `ProductForm` model the settings screen's add handler
(`src/app/(tabs)/settings.tsx`):

- `ProductForm.Filled` (line 20): the handler's gate, true when the name, room and type fields are all non-empty
- `ProductForm.NextIdAsWritten` (line 22): the id as written, one more than the number of cards
- `ProductForm.SubmitAsWritten` (lines 19-35): the list after a submit as written; `AsWrittenRepeatsId` shows the ids it repeats
- `ProductForm.Submit` (lines 19-35): the list after a submit with the corrected id; `SubmitKeepsUniqueIds` and `DeleteSubmittedRestores` state its properties
- `ProductForm.AsWrittenRepeatsId` (lines 19-35): as written: add A, add B, delete id 1, then add C. C gets id 2 again, the list holds two cards with id 2, and deleting C's id also deletes B
- `ProductForm.NextId` (line 22): the corrected id is at least 1 and larger than every id in the list, so no card carries it
- `ProductForm.NextIdAgreesWhileDense` (line 22): while the ids are still 1..n in order (nothing deleted yet), the corrected id equals the id chosen as written
- `ProductForm.SubmitKeepsUniqueIds` (lines 19-35): submitting adds one card if and only if all three fields are non-empty, leaves the existing cards in place, and keeps ids unique
- `ProductForm.DeleteSubmittedRestores` (lines 19-35): for every form, deleting the id the submit picked restores the list as it was before the submit; a filled form's card is the only one with that id, and an unfilled form adds nothing
- `ProductForm.AddCardHandler` (lines 19-35): the handler changes the store's list to the corrected submit of the old list

## Left out

- React plumbing is not modelled: `createContext`, `useContext`, `useState`, the `Provider` element, and re-rendering of subscribed screens (`src/contexts/ProductsContext.tsx:2, 22, 51-55`). Each mutation is modelled as acting on the current list. React's stale closures and batched state updates are ignored.
- ProductsContext.ProductsStore.SetCards: only plain replacement is modelled. The functional-updater form of React's state setter is framework behaviour.
- ProductsContext.UseProductsContext: "no provider" is modelled as an absent `Option` value. The thrown exception becomes a `Failure` carrying the same message.
- Navigation between screens (passing the selected card to the detail screen, `goBack`) is not modelled. It is carried by the navigation library, with no logic of the app's own.
- The screens and components (`ProductCard`, `Button`, the temperature alert, the detail screen's on/off and mode toggles, clearing the form fields after a submit) are presentation only and are not modelled.
- Card ids are modelled as unbounded integers. The source types them as JavaScript numbers. Their precision limits, fractional values and NaN are not modelled. A card whose id is NaN could never be deleted, because `card.id !== id` always holds for it. The only producer of cards, the settings screen (`src/app/(tabs)/settings.tsx:22`), always gives positive integers.
