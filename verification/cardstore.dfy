/**
 * The saved credit cards: the "credit_cards" collection as a sequence of
 * documents, and the repository's add, list, delete and set-default
 * operations on it.  Whether the store's write succeeds, and the id a new
 * document gets, are parameters; a failed write changes nothing.
 */
module CardStore {
  import opened Wrappers
  import opened Seqs
  import opened Text
  import CardForm

  datatype CreditCard = CreditCard(id: string, userId: string, cardNumber: string, cardHolderName: string,
                                   expiryDate: string, isDefault: bool, createdAt: int)

  /** The collection after an operation, and what the operation returned. */
  datatype Outcome<T> = Outcome(cards: seq<CreditCard>, result: Result<T>)

  /** The ids of the stored documents are distinct. */
  predicate IdsUnique(cards: seq<CreditCard>)
  {
    forall i, j :: 0 <= i < j < |cards| ==> cards[i].id != cards[j].id
  }

  /**
   * `addCreditCard`: only the last four characters of the number are kept;
   * the new document's id goes into the card, which is added and returned.
   */
  function AddCreditCard(cards: seq<CreditCard>, userId: string, cardNumber: string, holder: string, expiry: string,
                         freshId: string, now: int, failure: Option<string>): (r: Outcome<CreditCard>)
    ensures failure.Some? ==> r.cards == cards && r.result == Failure(failure.value)
    ensures failure.None? ==> r.result.Success? && r.cards == cards + [r.result.value]
    ensures r.result.Success? ==>
              var c := r.result.value;
              c.id == freshId && c.userId == userId && c.cardNumber == TakeLast(cardNumber, 4) &&
              c.cardHolderName == holder && c.expiryDate == expiry && !c.isDefault
  {
    var card := CreditCard(freshId, userId, TakeLast(cardNumber, 4), holder, expiry, false, now);
    match failure
    case Some(m) => Outcome(cards, Failure(m))
    case None => Outcome(cards + [card], Success(card))
  }

  /** `getCreditCards`: the user's cards in store order, or none when the query fails. */
  function ListCards(cards: seq<CreditCard>, userId: string, failure: Option<string>): (r: seq<CreditCard>)
    ensures failure.Some? ==> r == []
    ensures failure.None? ==> IsSubsequence(r, cards) && forall c :: c in r <==> c in cards && c.userId == userId
  {
    if failure.Some? then [] else Filter(cards, (c: CreditCard) => c.userId == userId)
  }

  /** `deleteCreditCard`: every document with the id goes; the rest keep their order. */
  function DeleteCreditCard(cards: seq<CreditCard>, cardId: string, failure: Option<string>): (r: Outcome<()>)
    ensures failure.Some? ==> r.cards == cards && r.result == Failure(failure.value)
    ensures failure.None? ==> r.result.Success? && IsSubsequence(r.cards, cards) &&
                              forall c :: c in r.cards <==> c in cards && c.id != cardId
  {
    match failure
    case Some(m) => Outcome(cards, Failure(m))
    case None => Outcome(Filter(cards, (c: CreditCard) => c.id != cardId), Success(()))
  }

  /** The message the store gives when a batch updates a document that does not exist. */
  const NotFound := "NOT_FOUND"

  predicate HasCard(cards: seq<CreditCard>, cardId: string)
  {
    exists k :: 0 <= k < |cards| && cards[k].id == cardId
  }

  /** The batch's effect on one document: the chosen card is default, the user's others are not. */
  function MarkDefault(c: CreditCard, cardId: string, userId: string): CreditCard
  {
    if c.id == cardId then c.(isDefault := true)
    else if c.userId == userId then c.(isDefault := false)
    else c
  }

  /**
   * `setDefaultCard`: one batch clears the flag on every card of the user
   * and then sets it on the chosen card, whoever owns it; a chosen id with
   * no document makes the whole batch fail.
   */
  function SetDefaultCard(cards: seq<CreditCard>, cardId: string, userId: string, failure: Option<string>): (r: Outcome<()>)
    ensures !HasCard(cards, cardId) || failure.Some? ==> r.cards == cards && r.result.Failure?
    ensures HasCard(cards, cardId) && failure.None? ==> r.result.Success? && |r.cards| == |cards|
    ensures HasCard(cards, cardId) && failure.None? ==>
              forall k :: 0 <= k < |cards| ==>
                (r.cards[k].(isDefault := cards[k].isDefault) == cards[k] &&
                 (cards[k].id == cardId ==> r.cards[k].isDefault) &&
                 (cards[k].id != cardId && cards[k].userId == userId ==> !r.cards[k].isDefault) &&
                 (cards[k].id != cardId && cards[k].userId != userId ==> r.cards[k] == cards[k]))
  {
    if failure.Some? then Outcome(cards, Failure(failure.value))
    else if !HasCard(cards, cardId) then Outcome(cards, Failure(NotFound))
    else Outcome(Map(cards, (c: CreditCard) => MarkDefault(c, cardId, userId)), Success(()))
  }

  /**
   * When the chosen card is the user's, the user's listing afterwards has
   * exactly that card as default.
   */
  lemma SetDefaultLeavesOneDefault(cards: seq<CreditCard>, cardId: string, userId: string)
    requires IdsUnique(cards)
    requires exists k :: 0 <= k < |cards| && cards[k].id == cardId && cards[k].userId == userId
    ensures var after := SetDefaultCard(cards, cardId, userId, None).cards;
            var listed := ListCards(after, userId, None);
            (exists c :: c in listed && c.id == cardId && c.isDefault) &&
            forall c :: c in listed && c.isDefault ==> c.id == cardId
  {
    var after := SetDefaultCard(cards, cardId, userId, None).cards;
    var k :| 0 <= k < |cards| && cards[k].id == cardId && cards[k].userId == userId;
    assert after[k] in ListCards(after, userId, None);
  }

  /**
   * The owner is not checked: a card of another user becomes default, and
   * that user's other cards keep their flags, so two of them may be default.
   */
  lemma SetDefaultIgnoresOwner(cards: seq<CreditCard>, cardId: string, userId: string, k: int)
    requires 0 <= k < |cards| && cards[k].id == cardId && cards[k].userId != userId
    ensures var after := SetDefaultCard(cards, cardId, userId, None).cards;
            after[k].isDefault &&
            forall j :: 0 <= j < |cards| && cards[j].userId == cards[k].userId && cards[j].id != cardId ==>
              after[j] == cards[j]
  {
  }

  /** A card just added shows up in its owner's listing, holding the last four characters of the number. */
  lemma AddThenList(cards: seq<CreditCard>, userId: string, cardNumber: string, holder: string, expiry: string,
                    freshId: string, now: int)
    ensures var r := AddCreditCard(cards, userId, cardNumber, holder, expiry, freshId, now, None);
            r.result.value in ListCards(r.cards, userId, None) && r.result.value.cardNumber == TakeLast(cardNumber, 4)
  {
  }

  /** After a delete no listing holds the card, and the other cards of the user are still listed. */
  lemma DeleteThenList(cards: seq<CreditCard>, cardId: string, userId: string)
    ensures var after := DeleteCreditCard(cards, cardId, None).cards;
            (forall c :: c in ListCards(after, userId, None) ==> c.id != cardId) &&
            forall c :: c in ListCards(cards, userId, None) && c.id != cardId ==> c in ListCards(after, userId, None)
  {
  }

  /**
   * From the form to the store: a valid submission of sixteen typed digits
   * stores exactly the last four of them.
   */
  lemma StoredNumberIsLastFourDigits(f: CardForm.Form, typed: string, user: string, freshId: string, now: int)
    requires f.cardNumber == CardForm.FormatCard(typed)
    requires CardForm.Submit(f, Some(user)).saved.Some?
    ensures var s := CardForm.Submit(f, Some(user)).saved.value;
            var c := AddCreditCard([], s.userId, s.cardNumber, s.holder, s.expiry, freshId, now, None).result.value;
            |c.cardNumber| == 4 && AllDigits(c.cardNumber) && c.cardNumber == Digits(typed)[12..]
  {
  }
}
