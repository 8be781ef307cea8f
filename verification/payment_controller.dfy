/**
 Saved payment methods (backend/controllers/paymentcontroller.js): masked
 card metadata kept as a list embedded in the calling user's record. Every
 handler runs behind `protect`, loads the caller by id and touches no other
 user. The id a new card receives is a parameter.
 */
module PaymentController {
  import opened Js
  import opened Options
  import opened Seqs
  import opened Http
  import opened UserModel

  const MissingCardFields := "Missing card fields"
  const CardNotFound := "Card not found"

  /** The fields `saveCard` reads from the body. */
  datatype CardInput = CardInput(brand: Value, last4: Value, expMonth: Value, expYear: Value, cardLabel: Value)

  /** `savedPaymentMethods.id(raw)`: the card whose id `raw` denotes. A raw id
      that does not cast to an ObjectId matches no card (no exception). */
  function FindCard(cards: seq<Card>, raw: string): (r: Lookup<Card>)
    ensures !r.Malformed?
    ensures r.Found? ==> CastId(raw).Some? && r.index < |cards| && cards[r.index] == r.value && r.value.id == CastId(raw).value
    ensures r.Absent? ==> CastId(raw).None? || forall k :: 0 <= k < |cards| ==> cards[k].id != CastId(raw).value
  {
    match CastId(raw)
    case None => Absent
    case Some(id) => FindKey(cards, CardId, id)
  }

  /** The caller's record with its card list replaced. */
  function WithCards(users: seq<User>, i: nat, cards: seq<Card>): (r: seq<User>)
    requires i < |users|
    ensures r == ReplaceAt(users, i, users[i].(savedPaymentMethods := cards))
  {
    ReplaceAt(users, i, users[i].(savedPaymentMethods := cards))
  }

  /** `saveCard`: the four card fields must be truthy (checked before the
      caller is loaded); the card is then appended to the caller's list. */
  function SaveCard(users: seq<User>, callerId: string, body: CardInput, newCardId: string)
    : (h: Handled<seq<Card>, seq<User>>)
    ensures !h.reply.Success() ==> h.store == users
    ensures !Truthy(body.brand) || !Truthy(body.last4) || !Truthy(body.expMonth) || !Truthy(body.expYear) ==>
              h.reply == Fail(BadRequest, MissingCardFields)
    ensures h.reply.Fail? && h.reply.failure != BadRequest ==>
              FindCaller(users, callerId).Absent? && h.reply == Fail(ServerError, TypeError)
    ensures Truthy(body.brand) && Truthy(body.last4) && Truthy(body.expMonth) && Truthy(body.expYear) ==>
              (h.reply.Created? <==> FindCaller(users, callerId).Found?)
    ensures h.reply.Success() ==>
      && h.reply.Created?
      && Truthy(body.brand) && Truthy(body.last4) && Truthy(body.expMonth) && Truthy(body.expYear)
      && FindCaller(users, callerId).Found?
      && var f := FindCaller(users, callerId);
         var card := Card(newCardId, body.brand, body.last4, body.expMonth, body.expYear, body.cardLabel);
         && h.reply.value == f.value.savedPaymentMethods + [card]
         && h.store == WithCards(users, f.index, h.reply.value)
  {
    if !Truthy(body.brand) || !Truthy(body.last4) || !Truthy(body.expMonth) || !Truthy(body.expYear) then
      Handled(Fail(BadRequest, MissingCardFields), users)
    else match FindCaller(users, callerId)
      case Found(i, u) =>
        var cards := u.savedPaymentMethods + [Card(newCardId, body.brand, body.last4, body.expMonth, body.expYear, body.cardLabel)];
        Handled(Created(cards), WithCards(users, i, cards))
      case _ => Handled(Fail(ServerError, TypeError), users)
  }

  /** A saved card lands at the end: the list grows by one, the earlier cards
      keep their positions and contents, the new card carries exactly the
      submitted fields (the label may be anything, `undefined` included), and
      every other user is untouched. */
  lemma SaveCardAppends(users: seq<User>, callerId: string, body: CardInput, newCardId: string)
    requires SaveCard(users, callerId, body, newCardId).reply.Success()
    ensures var h := SaveCard(users, callerId, body, newCardId);
      var i := FindCaller(users, callerId).index;
      var before := users[i].savedPaymentMethods;
      var after := h.store[i].savedPaymentMethods;
      && |h.store| == |users|
      && (forall j :: 0 <= j < |users| && j != i ==> h.store[j] == users[j])
      && |after| == |before| + 1
      && after[..|before|] == before
      && after[|before|] == Card(newCardId, body.brand, body.last4, body.expMonth, body.expYear, body.cardLabel)
      && h.store[i].(savedPaymentMethods := before) == users[i]
  {
    var i := FindCaller(users, callerId).index;
    var before := users[i].savedPaymentMethods;
    var after := SaveCard(users, callerId, body, newCardId).store[i].savedPaymentMethods;
    assert after[..|before|] == before;
  }

  /** `listCards`: the caller's list as stored. */
  function ListCards(users: seq<User>, callerId: string): (r: Reply<seq<Card>>)
    ensures FindCaller(users, callerId).Found? ==> r == Ok(FindCaller(users, callerId).value.savedPaymentMethods)
    ensures FindCaller(users, callerId).Absent? ==> r == Fail(ServerError, TypeError)
  {
    match FindCaller(users, callerId)
    case Found(_, u) => Ok(u.savedPaymentMethods)
    case _ => Fail(ServerError, TypeError)
  }

  /** Listing after a save shows the previous list followed by the new card,
      provided no earlier record shares the caller's id. */
  lemma SaveCardThenList(users: seq<User>, callerId: string, body: CardInput, newCardId: string)
    requires UniqueKeys(users, UserId)
    requires SaveCard(users, callerId, body, newCardId).reply.Success()
    ensures ListCards(SaveCard(users, callerId, body, newCardId).store, callerId)
         == Ok(FindCaller(users, callerId).value.savedPaymentMethods
               + [Card(newCardId, body.brand, body.last4, body.expMonth, body.expYear, body.cardLabel)])
  {
    var i := FindCaller(users, callerId).index;
    var after := SaveCard(users, callerId, body, newCardId).store;
    CallerAfterReplace(users, callerId, i, after[i]);
  }

  /** Replacing the caller's record by one with the same id leaves the caller
      found at the same place, holding the new record. */
  lemma CallerAfterReplace(users: seq<User>, callerId: string, i: nat, v: User)
    requires UniqueKeys(users, UserId)
    requires i < |users| && users[i].id == callerId && v.id == callerId
    ensures FindCaller(ReplaceAt(users, i, v), callerId) == Found(i, v)
  {
    var after := ReplaceAt(users, i, v);
    assert UniqueKeys(after, UserId) by {
      forall a, b | 0 <= a < b < |after|
        ensures UserId(after[a]) != UserId(after[b])
      {
        assert UserId(after[a]) == UserId(users[a]) && UserId(after[b]) == UserId(users[b]);
      }
    }
    FindKeyUnique(after, UserId, i);
  }

  /** The card with its label replaced when a string label was supplied. */
  function Relabel(c: Card, newLabel: Value): (r: Card)
    ensures newLabel.Str? ==> r == c.(cardLabel := newLabel)
    ensures !newLabel.Str? ==> r == c
  {
    if newLabel.Str? then c.(cardLabel := newLabel) else c
  }

  /** `updateCard`: an unknown card is a 404; otherwise only that card's label
      changes, and only when the supplied label is a string. */
  function UpdateCard(users: seq<User>, callerId: string, cardId: string, newLabel: Value)
    : (h: Handled<seq<Card>, seq<User>>)
    ensures !h.reply.Success() ==> h.store == users
    ensures FindCaller(users, callerId).Absent? ==> h.reply == Fail(ServerError, TypeError)
    ensures FindCaller(users, callerId).Found? ==>
      var i := FindCaller(users, callerId).index;
      var cards := users[i].savedPaymentMethods;
      var f := FindCard(cards, cardId);
      && (!f.Found? ==> h.reply == Fail(NotFound, CardNotFound))
      && (f.Found? ==>
            && h.reply == Ok(ReplaceAt(cards, f.index, Relabel(f.value, newLabel)))
            && h.store == WithCards(users, i, h.reply.value))
  {
    match FindCaller(users, callerId)
    case Found(i, u) =>
      (match FindCard(u.savedPaymentMethods, cardId)
       case Found(k, c) =>
         var cards := ReplaceAt(u.savedPaymentMethods, k, Relabel(c, newLabel));
         Handled(Ok(cards), WithCards(users, i, cards))
       case _ => Handled(Fail(NotFound, CardNotFound), users))
    case _ => Handled(Fail(ServerError, TypeError), users)
  }

  /** What an edit can change: the list keeps its length, every card but the
      target is as it was, the target keeps every field but its label, and the
      label is the supplied string (or unchanged for any other value). */
  lemma UpdateCardOnlyLabel(users: seq<User>, callerId: string, cardId: string, newLabel: Value)
    requires UpdateCard(users, callerId, cardId, newLabel).reply.Success()
    ensures var h := UpdateCard(users, callerId, cardId, newLabel);
      var i := FindCaller(users, callerId).index;
      var before := users[i].savedPaymentMethods;
      var after := h.store[i].savedPaymentMethods;
      var k := FindCard(before, cardId).index;
      && |h.store| == |users|
      && (forall j :: 0 <= j < |users| && j != i ==> h.store[j] == users[j])
      && h.store[i].(savedPaymentMethods := before) == users[i]
      && |after| == |before|
      && (forall m :: 0 <= m < |before| && m != k ==> after[m] == before[m])
      && after[k].(cardLabel := before[k].cardLabel) == before[k]
      && after[k].cardLabel == (if newLabel.Str? then newLabel else before[k].cardLabel)
  {
  }

  /** The list without the cards carrying `id`. */
  function WithoutCard(cards: seq<Card>, id: string): (r: seq<Card>)
    ensures forall x | x in r :: x in cards && x.id != id
    ensures forall x | x in cards :: x in r <==> x.id != id
  {
    Filter(cards, (x: Card) => x.id != id)
  }

  /** Removing the id of a card appended under a fresh id restores the list. */
  lemma WithoutAppended(before: seq<Card>, c: Card)
    requires forall x | x in before :: x.id != c.id
    ensures WithoutCard(before + [c], c.id) == before
  {
    var p := (x: Card) => x.id != c.id;
    FilterConcat(before, [c], p);
    FilterExtremes(before, p);
    assert Filter([c], p) == [] by {
      assert [c][1..] == [];
    }
  }

  /** `deleteCard`: an unknown card is a 404; otherwise the subdocument is
      pulled, which removes every card carrying its id. */
  function DeleteCard(users: seq<User>, callerId: string, cardId: string): (h: Handled<seq<Card>, seq<User>>)
    ensures !h.reply.Success() ==> h.store == users
    ensures FindCaller(users, callerId).Absent? ==> h.reply == Fail(ServerError, TypeError)
    ensures FindCaller(users, callerId).Found? ==>
      var i := FindCaller(users, callerId).index;
      var cards := users[i].savedPaymentMethods;
      var f := FindCard(cards, cardId);
      && (!f.Found? ==> h.reply == Fail(NotFound, CardNotFound))
      && (f.Found? ==>
            && h.reply.Ok?
            && (forall x | x in h.reply.value :: x in cards && x.id != f.value.id)
            && (forall x | x in cards :: x in h.reply.value <==> x.id != f.value.id)
            && h.store == WithCards(users, i, h.reply.value))
  {
    match FindCaller(users, callerId)
    case Found(i, u) =>
      (match FindCard(u.savedPaymentMethods, cardId)
       case Found(_, c) =>
         var cards := WithoutCard(u.savedPaymentMethods, c.id);
         Handled(Ok(cards), WithCards(users, i, cards))
       case _ => Handled(Fail(NotFound, CardNotFound), users))
    case _ => Handled(Fail(ServerError, TypeError), users)
  }

  /** With card ids unique in the caller's list, deleting removes exactly the
      matching card and the others keep their relative order. */
  lemma DeleteCardRemovesExactly(users: seq<User>, callerId: string, cardId: string)
    requires FindCaller(users, callerId).Found?
    requires UniqueKeys(FindCaller(users, callerId).value.savedPaymentMethods, CardId)
    requires FindCard(FindCaller(users, callerId).value.savedPaymentMethods, cardId).Found?
    ensures var cards := FindCaller(users, callerId).value.savedPaymentMethods;
      DeleteCard(users, callerId, cardId).reply == Ok(RemoveAt(cards, FindCard(cards, cardId).index))
  {
    var cards := FindCaller(users, callerId).value.savedPaymentMethods;
    var k := FindCard(cards, cardId).index;
    FilterOutKey(cards, CardId, (x: Card) => x.id != cards[k].id, k);
    assert WithoutCard(cards, cards[k].id) == Filter(cards, (x: Card) => x.id != cards[k].id);
  }

  /** Deleting a card just saved under a fresh id gives back the list as it
      was before the save. */
  lemma SaveThenDeleteCard(users: seq<User>, callerId: string, body: CardInput, newCardId: string)
    requires UniqueKeys(users, UserId)
    requires IsId(newCardId)
    requires SaveCard(users, callerId, body, newCardId).reply.Success()
    requires forall c | c in FindCaller(users, callerId).value.savedPaymentMethods :: c.id != newCardId
    ensures DeleteCard(SaveCard(users, callerId, body, newCardId).store, callerId, newCardId).reply
         == Ok(FindCaller(users, callerId).value.savedPaymentMethods)
  {
    var i := FindCaller(users, callerId).index;
    var before := users[i].savedPaymentMethods;
    var saved := SaveCard(users, callerId, body, newCardId).store;
    var after := saved[i].savedPaymentMethods;
    CallerAfterReplace(users, callerId, i, saved[i]);
    CastStoredId(newCardId);
    assert after == before + [after[|before|]];
    assert forall k :: 0 <= k < |before| ==> after[k] in before;
    WithoutAppended(before, after[|before|]);
  }
}
