/**
 * Product cards and the pure list computations behind the products store:
 * the filter that deleteCard applies, and the facts that make appending and
 * filtering behave as the store promises.
 */
module Cards {

  /** One home-automation product: an id, a display name, its room (comodo) and its type (tipo). */
  datatype Card = Card(id: int, name: string, comodo: string, tipo: string)

  /** The cards whose id differs from `id`, in their original order (the filter in deleteCard). */
  function WithoutId(cards: seq<Card>, id: int): (r: seq<Card>)
    ensures |r| <= |cards|
    ensures forall c :: c in r ==> c in cards && c.id != id
  {
    if cards == [] then []
    else if cards[0].id == id then WithoutId(cards[1..], id)
    else [cards[0]] + WithoutId(cards[1..], id)
  }

  /** How many cards in the list carry the id `id`. */
  function CountId(cards: seq<Card>, id: int): (n: nat)
  {
    if cards == [] then 0
    else (if cards[0].id == id then 1 else 0) + CountId(cards[1..], id)
  }

  /** No two cards of the list share an id. */
  ghost predicate UniqueIds(cards: seq<Card>)
  {
    forall i, j :: 0 <= i < j < |cards| ==> cards[i].id != cards[j].id
  }

  /** Filtering drops exactly the cards that carry the id. */
  lemma {:induction false} WithoutIdLength(cards: seq<Card>, id: int)
    ensures |WithoutId(cards, id)| == |cards| - CountId(cards, id)
  {
    if cards != [] {
      WithoutIdLength(cards[1..], id);
    }
  }

  /**
   * Filtering removes every copy of every card with the id and keeps every
   * copy of every other card: the multiplicities are those of the input, or zero.
   */
  lemma {:induction false} WithoutIdMultiset(cards: seq<Card>, id: int)
    ensures forall c :: multiset(WithoutId(cards, id))[c] == if c.id == id then 0 else multiset(cards)[c]
  {
    if cards != [] {
      WithoutIdMultiset(cards[1..], id);
      assert cards == [cards[0]] + cards[1..];
    }
  }

  /** A card survives the filter exactly when it was in the list and its id differs. */
  lemma {:induction false} WithoutIdMembership(cards: seq<Card>, id: int)
    ensures forall c :: c in WithoutId(cards, id) <==> c in cards && c.id != id
  {
    WithoutIdMultiset(cards, id);
    forall c ensures c in WithoutId(cards, id) <==> c in cards && c.id != id {
      assert c in WithoutId(cards, id) <==> multiset(WithoutId(cards, id))[c] > 0;
      assert c in cards <==> multiset(cards)[c] > 0;
    }
  }

  /** Filtering a concatenation filters each part and keeps them in order: the relative order survives. */
  lemma {:induction false} WithoutIdConcat(a: seq<Card>, b: seq<Card>, id: int)
    ensures WithoutId(a + b, id) == WithoutId(a, id) + WithoutId(b, id)
  {
    if a == [] {
      assert a + b == b;
    } else {
      assert (a + b)[1..] == a[1..] + b;
      WithoutIdConcat(a[1..], b, id);
    }
  }

  /** A card of the list carries the id exactly when the count of that id is positive. */
  lemma {:induction false} CountIdPositive(cards: seq<Card>, id: int)
    ensures CountId(cards, id) > 0 <==> exists c :: c in cards && c.id == id
  {
    if cards != [] {
      CountIdPositive(cards[1..], id);
      assert cards[0] in cards;
      assert forall c :: c in cards <==> c == cards[0] || c in cards[1..];
    }
  }

  /** Filtering leaves the list unchanged exactly when no card carries the id (a missing id is no error). */
  lemma {:induction false} WithoutIdUnchanged(cards: seq<Card>, id: int)
    ensures WithoutId(cards, id) == cards <==> forall c :: c in cards ==> c.id != id
  {
    WithoutIdLength(cards, id);
    CountIdPositive(cards, id);
    WithoutIdMembership(cards, id);
    if forall c :: c in cards ==> c.id != id {
      NoMatchKeepsAll(cards, id);
    }
  }

  /** When no card carries the id, the filter keeps the list as it is. */
  lemma {:induction false} NoMatchKeepsAll(cards: seq<Card>, id: int)
    requires forall c :: c in cards ==> c.id != id
    ensures WithoutId(cards, id) == cards
  {
    if cards != [] {
      assert cards[0] in cards;
      NoMatchKeepsAll(cards[1..], id);
    }
  }

  /** Deleting the same id twice gives the list that deleting it once gives. */
  lemma {:induction false} WithoutIdIdempotent(cards: seq<Card>, id: int)
    ensures WithoutId(WithoutId(cards, id), id) == WithoutId(cards, id)
  {
    WithoutIdMembership(cards, id);
    NoMatchKeepsAll(WithoutId(cards, id), id);
  }

  /** Deleting two ids gives the same list in either order. */
  lemma {:induction false} WithoutIdCommutes(cards: seq<Card>, a: int, b: int)
    ensures WithoutId(WithoutId(cards, a), b) == WithoutId(WithoutId(cards, b), a)
  {
    if cards != [] {
      WithoutIdCommutes(cards[1..], a, b);
      var h, t := cards[0], cards[1..];
      if h.id != a && h.id != b {
        assert WithoutId(cards, a) == [h] + WithoutId(t, a);
        assert WithoutId(cards, b) == [h] + WithoutId(t, b);
        assert ([h] + WithoutId(t, a))[1..] == WithoutId(t, a);
        assert ([h] + WithoutId(t, b))[1..] == WithoutId(t, b);
      } else if h.id == a && h.id != b {
        assert WithoutId(cards, b) == [h] + WithoutId(t, b);
        assert ([h] + WithoutId(t, b))[1..] == WithoutId(t, b);
      } else if h.id != a && h.id == b {
        assert WithoutId(cards, a) == [h] + WithoutId(t, a);
        assert ([h] + WithoutId(t, a))[1..] == WithoutId(t, a);
      }
    }
  }

  /**
   * Deleting after an append: the appended card is dropped when it carries
   * the id and otherwise stays last, behind the filtered old list.
   */
  lemma AppendThenWithoutId(cards: seq<Card>, card: Card, id: int)
    ensures WithoutId(cards + [card], id)
         == if card.id == id then WithoutId(cards, id) else WithoutId(cards, id) + [card]
  {
    WithoutIdConcat(cards, [card], id);
    assert [card][1..] == [];
    if card.id == id {
      assert WithoutId(cards, id) + [] == WithoutId(cards, id);
    }
  }

  /** Counting ids over a concatenation adds the counts of the parts. */
  lemma {:induction false} CountIdConcat(a: seq<Card>, b: seq<Card>, id: int)
    ensures CountId(a + b, id) == CountId(a, id) + CountId(b, id)
  {
    if a == [] {
      assert a + b == b;
    } else {
      assert (a + b)[1..] == a[1..] + b;
      CountIdConcat(a[1..], b, id);
    }
  }

  /** Appending never de-duplicates: the appended card's id is counted once more, even if already present. */
  lemma AppendCountsId(cards: seq<Card>, card: Card)
    ensures CountId(cards + [card], card.id) == CountId(cards, card.id) + 1
  {
    CountIdConcat(cards, [card], card.id);
    assert [card][1..] == [];
  }

  /** With unique ids, at most one card carries any given id. */
  lemma {:induction false} UniqueIdsCountAtMostOne(cards: seq<Card>, id: int)
    requires UniqueIds(cards)
    ensures CountId(cards, id) <= 1
  {
    if cards != [] {
      var t := cards[1..];
      assert UniqueIds(t) by {
        forall i, j | 0 <= i < j < |t| ensures t[i].id != t[j].id {
          assert t[i] == cards[i + 1] && t[j] == cards[j + 1];
        }
      }
      UniqueIdsCountAtMostOne(t, id);
      if cards[0].id == id {
        CountIdPositive(t, id);
      }
    }
  }

  /** With unique ids, deleting a present id removes exactly one card. */
  lemma DeleteRemovesExactlyOne(cards: seq<Card>, id: int)
    requires UniqueIds(cards)
    requires exists c :: c in cards && c.id == id
    ensures |WithoutId(cards, id)| == |cards| - 1
  {
    WithoutIdLength(cards, id);
    CountIdPositive(cards, id);
    UniqueIdsCountAtMostOne(cards, id);
  }

  /** Filtering keeps ids unique. */
  lemma {:induction false} WithoutIdKeepsUnique(cards: seq<Card>, id: int)
    requires UniqueIds(cards)
    ensures UniqueIds(WithoutId(cards, id))
  {
    if cards != [] {
      var h, t := cards[0], cards[1..];
      assert UniqueIds(t) by {
        forall i, j | 0 <= i < j < |t| ensures t[i].id != t[j].id {
          assert t[i] == cards[i + 1] && t[j] == cards[j + 1];
        }
      }
      WithoutIdKeepsUnique(t, id);
      if h.id != id {
        var rest := WithoutId(t, id);
        WithoutIdMembership(t, id);
        var r := [h] + rest;
        forall i, j | 0 <= i < j < |r| ensures r[i].id != r[j].id {
          if i == 0 {
            assert r[j] == rest[j - 1] && r[j] in t;
            var k :| 0 <= k < |t| && t[k] == r[j];
            assert cards[k + 1] == r[j];
          } else {
            assert r[i] == rest[i - 1] && r[j] == rest[j - 1];
          }
        }
      }
    }
  }

  /** Appending a card whose id is new keeps ids unique. */
  lemma AppendFreshKeepsUnique(cards: seq<Card>, card: Card)
    requires UniqueIds(cards)
    requires forall c :: c in cards ==> c.id != card.id
    ensures UniqueIds(cards + [card])
  {
    var r := cards + [card];
    forall i, j | 0 <= i < j < |r| ensures r[i].id != r[j].id {
      if j == |cards| {
        assert r[i] == cards[i] && cards[i] in cards;
      } else {
        assert r[i] == cards[i] && r[j] == cards[j];
      }
    }
  }
}
