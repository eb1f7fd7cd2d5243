/** Offers: a buyer's price proposal on a listing. An offer is created pending,
    answered once by the listing's farmer (accepting one rejects the other
    pending offers on the listing), and may be withdrawn by its buyer only while
    it is still pending. */
module Offers {
  import opened Common
  import opened Database

  // ---------------------------------------------------------------- sendOffer

  /** sendOffer's checks in the handler's order, and the row it inserts under the
      next serial `id`. `listingId` is None when the body's value is falsy;
      `message` is "" when absent. */
  function CheckOffer(listings: map<nat, Listing>, users: map<nat, User>, offers: map<nat, Offer>,
                      buyerId: nat, listingId: Option<nat>, offerPrice: Input<real>,
                      message: string, id: nat): (r: Result<Offer>)
    ensures (listingId.None? || offerPrice.Missing?) ==> r == Err(Error(400, OfferFieldsRequired))
    ensures (listingId.Some? && offerPrice.Given? && !Positive(offerPrice))
            ==> r == Err(Error(400, InvalidOfferPrice))
    ensures (listingId.Some? && Positive(offerPrice) && !ListingOpen(listings, users, listingId.value))
            ==> r == Err(Error(404, ListingUnavailable))
    ensures (listingId.Some? && Positive(offerPrice) && ListingOpen(listings, users, listingId.value)
             && listings[listingId.value].farmerId == buyerId) ==> r == Err(Error(400, OwnListing))
    ensures r.Ok? <==>
              && listingId.Some? && Positive(offerPrice)
              && ListingOpen(listings, users, listingId.value)
              && listings[listingId.value].farmerId != buyerId
              && !HasOffer(offers, listingId.value, buyerId)
    ensures (r.Err? && listingId.Some? && Positive(offerPrice) && ListingOpen(listings, users, listingId.value)
             && listings[listingId.value].farmerId != buyerId) ==> r.error == Error(400, DuplicateOffer)
    ensures r.Ok? ==>
              && r.value.id == id && r.value.listingId == listingId.value && r.value.buyerId == buyerId
              && r.value.offerPrice == offerPrice.parsed.value && r.value.offerPrice > 0.0
              && r.value.status == Pending
              && r.value.message == OptionalText(message)
  {
    if listingId.None? || offerPrice.Missing? then Err(Error(400, OfferFieldsRequired))
    else if !Positive(offerPrice) then Err(Error(400, InvalidOfferPrice))
    else if !ListingOpen(listings, users, listingId.value) then Err(Error(404, ListingUnavailable))
    else if listings[listingId.value].farmerId == buyerId then Err(Error(400, OwnListing))
    else if HasOffer(offers, listingId.value, buyerId) then Err(Error(400, DuplicateOffer))
    else Ok(Offer(id, listingId.value, buyerId, offerPrice.parsed.value, OptionalText(message), Pending))
  }

  /** sendOffer: inserts exactly one pending offer, or nothing. */
  method SendOffer(db: Store, buyerId: nat, listingId: Option<nat>, offerPrice: Input<real>, message: string)
    returns (r: Result<Offer>)
    requires db.Valid()
    modifies db`offers, db`nextOffer
    ensures db.Valid()
    ensures r == CheckOffer(old(db.listings), old(db.users), old(db.offers), buyerId, listingId,
                            offerPrice, message, old(db.nextOffer))
    ensures r.Ok? ==> db.offers == old(db.offers)[r.value.id := r.value] && r.value.id !in old(db.offers)
    ensures r.Err? ==> db.offers == old(db.offers) && db.nextOffer == old(db.nextOffer)
  {
    r := CheckOffer(db.listings, db.users, db.offers, buyerId, listingId, offerPrice, message, db.nextOffer);
    if r.Ok? {
      OfferKeepsPairsUnique(db.offers, r.value);
      db.offers := db.offers[db.nextOffer := r.value];
      db.nextOffer := db.nextOffer + 1;
    }
  }

  /** Inserting an offer for a (listing, buyer) pair that has none keeps the
      pairs unique. */
  lemma OfferKeepsPairsUnique(offers: map<nat, Offer>, o: Offer)
    requires UniqueOfferPairs(offers) && o.id !in offers
    requires !HasOffer(offers, o.listingId, o.buyerId)
    ensures UniqueOfferPairs(offers[o.id := o])
  {
  }

  /** Once an offer is sent, the same buyer's next offer on that listing is
      refused as a duplicate, whatever its price or message. */
  lemma SecondOfferRefused(listings: map<nat, Listing>, users: map<nat, User>, offers: map<nat, Offer>,
                           buyerId: nat, listingId: nat, price: Input<real>, message: string, id: nat,
                           price2: Input<real>, message2: string, id2: nat)
    requires CheckOffer(listings, users, offers, buyerId, Some(listingId), price, message, id).Ok?
    requires Positive(price2)
    ensures var o := CheckOffer(listings, users, offers, buyerId, Some(listingId), price, message, id).value;
            CheckOffer(listings, users, offers[id := o], buyerId, Some(listingId), price2, message2, id2)
            == Err(Error(400, DuplicateOffer))
  {
    var o := CheckOffer(listings, users, offers, buyerId, Some(listingId), price, message, id).value;
    assert offers[id := o][id] == o;
  }

  // ---------------------------------------------------------------- respondToOffer

  /** The answer the farmer sends. */
  datatype Action = Accept | Reject

  /** `['accept', 'reject'].includes(action)`. */
  function ParseAction(s: string): (a: Option<Action>)
    ensures a.Some? <==> s == "accept" || s == "reject"
    ensures a == Some(Accept) <==> s == "accept"
  {
    if s == "accept" then Some(Accept) else if s == "reject" then Some(Reject) else None
  }

  function Outcome(a: Action): OfferStatus {
    match a
    case Accept => Accepted
    case Reject => Rejected
  }

  /** respondToOffer's checks in the handler's order; on success the target offer
      with its new status. The offer is found through a join with its listing. */
  function CheckRespond(offers: map<nat, Offer>, listings: map<nat, Listing>, farmerId: nat,
                        offerId: nat, action: string): (r: Result<Offer>)
    ensures ParseAction(action).None? ==> r == Err(Error(400, InvalidAction))
    ensures (ParseAction(action).Some? && (offerId !in offers || offers[offerId].listingId !in listings))
            ==> r == Err(Error(404, OfferNotFound))
    ensures (ParseAction(action).Some? && offerId in offers && offers[offerId].listingId in listings
             && listings[offers[offerId].listingId].farmerId != farmerId) ==> r == Err(Error(403, NotYourListing))
    ensures r.Ok? <==>
              && ParseAction(action).Some? && offerId in offers
              && offers[offerId].listingId in listings
              && listings[offers[offerId].listingId].farmerId == farmerId
              && offers[offerId].status == Pending
    ensures (r.Err? && offerId in offers && offers[offerId].status != Pending
             && ParseAction(action).Some? && offers[offerId].listingId in listings
             && listings[offers[offerId].listingId].farmerId == farmerId)
            ==> r.error == Error(400, AlreadyAnswered)
    ensures r.Ok? ==> r.value == offers[offerId].(status := Outcome(ParseAction(action).value))
  {
    if ParseAction(action).None? then Err(Error(400, InvalidAction))
    else if offerId !in offers || offers[offerId].listingId !in listings then Err(Error(404, OfferNotFound))
    else if listings[offers[offerId].listingId].farmerId != farmerId then Err(Error(403, NotYourListing))
    else if offers[offerId].status != Pending then Err(Error(400, AlreadyAnswered))
    else Ok(offers[offerId].(status := Outcome(ParseAction(action).value)))
  }

  /** The bulk `UPDATE offers SET status = 'rejected' WHERE listing_id = $1 AND
      id != $2 AND status = 'pending'`. */
  function RejectPendingSiblings(offers: map<nat, Offer>, listingId: nat, keep: nat): (after: map<nat, Offer>)
    ensures after.Keys == offers.Keys
    ensures forall k | k in offers ::
              after[k] == if offers[k].listingId == listingId && k != keep && offers[k].status == Pending
                          then offers[k].(status := Rejected) else offers[k]
  {
    map k | k in offers ::
      if offers[k].listingId == listingId && k != keep && offers[k].status == Pending
      then offers[k].(status := Rejected) else offers[k]
  }

  /** The offers table after a successful answer to offer `offerId`: the target
      UPDATE, then, on accept, the rejection of the listing's other pending
      offers. */
  function Answered(offers: map<nat, Offer>, offerId: nat, target: Offer, action: Action): map<nat, Offer> {
    var updated := offers[offerId := target];
    if action == Accept then RejectPendingSiblings(updated, target.listingId, offerId) else updated
  }

  /** respondToOffer: on success, the two UPDATEs; on failure nothing changes. */
  method RespondToOffer(db: Store, farmerId: nat, offerId: nat, action: string) returns (r: Result<Offer>)
    requires db.Valid()
    modifies db`offers
    ensures db.Valid()
    ensures r == CheckRespond(old(db.offers), db.listings, farmerId, offerId, action)
    ensures r.Ok? ==> db.offers == Answered(old(db.offers), offerId, r.value, ParseAction(action).value)
    ensures r.Err? ==> db.offers == old(db.offers)
  {
    r := CheckRespond(db.offers, db.listings, farmerId, offerId, action);
    if r.Ok? {
      ghost var after := Answered(db.offers, offerId, r.value, ParseAction(action).value);
      AnswerKeepsPairsUnique(db.offers, offerId, r.value, ParseAction(action).value);
      db.offers := db.offers[offerId := r.value];
      if ParseAction(action) == Some(Accept) {
        db.offers := RejectPendingSiblings(db.offers, r.value.listingId, offerId);
      }
      assert db.offers == after;
    }
  }

  /** Row `k` moved, if at all, from pending to an answered status, and nothing
      else about it changed. */
  predicate AnsweredOnly(before: Offer, after: Offer) {
    after == before || (before.status == Pending && after == before.(status := after.status))
  }

  /** Answering keeps the key set and the (listing, buyer) pairs; every row either
      stays as it was or moves from pending to an answer. */
  lemma AnswerKeepsPairsUnique(offers: map<nat, Offer>, offerId: nat, target: Offer, action: Action)
    requires UniqueOfferPairs(offers)
    requires offerId in offers && offers[offerId].status == Pending
    requires target == offers[offerId].(status := Outcome(action))
    ensures Answered(offers, offerId, target, action).Keys == offers.Keys
    ensures UniqueOfferPairs(Answered(offers, offerId, target, action))
    ensures forall k | k in offers :: AnsweredOnly(offers[k], Answered(offers, offerId, target, action)[k])
  {
    var after := Answered(offers, offerId, target, action);
    forall k | k in offers
      ensures after[k].listingId == offers[k].listingId && after[k].buyerId == offers[k].buyerId
      ensures AnsweredOnly(offers[k], after[k])
    {
    }
  }

  /** After an accept no offer on that listing is still pending: the target is
      accepted and every other one is answered. */
  lemma AcceptClosesListing(offers: map<nat, Offer>, offerId: nat, target: Offer)
    requires target.status == Accepted
    ensures var after := Answered(offers, offerId, target, Accept);
            && after[offerId] == target
            && forall k | k in after && after[k].listingId == target.listingId :: after[k].status != Pending
  {
  }

  /** A rejection changes the target row only. */
  lemma RejectTouchesOnlyTarget(offers: map<nat, Offer>, offerId: nat, target: Offer)
    requires offerId in offers
    ensures var after := Answered(offers, offerId, target, Reject);
            && after.Keys == offers.Keys && after[offerId] == target
            && forall k | k in offers && k != offerId :: after[k] == offers[k]
  {
  }

  /** Every already answered offer keeps its row through a successful answer. */
  lemma AnswerKeepsAnswered(offers: map<nat, Offer>, listings: map<nat, Listing>, farmerId: nat,
                            offerId: nat, action: string)
    requires CheckRespond(offers, listings, farmerId, offerId, action).Ok?
    ensures var after := Answered(offers, offerId, CheckRespond(offers, listings, farmerId, offerId, action).value,
                                  ParseAction(action).value);
            forall k | k in offers && offers[k].status != Pending :: k in after && after[k] == offers[k]
  {
  }

  /** An answered offer cannot be answered again. */
  lemma SecondAnswerRefused(offers: map<nat, Offer>, listings: map<nat, Listing>, farmerId: nat,
                            offerId: nat, action: string, action2: string)
    requires CheckRespond(offers, listings, farmerId, offerId, action).Ok?
    requires ParseAction(action2).Some?
    ensures var after := Answered(offers, offerId, CheckRespond(offers, listings, farmerId, offerId, action).value,
                                  ParseAction(action).value);
            CheckRespond(after, listings, farmerId, offerId, action2) == Err(Error(400, AlreadyAnswered))
  {
    var target := CheckRespond(offers, listings, farmerId, offerId, action).value;
    assert offers[offerId := target][offerId] == target;
  }

  // ---------------------------------------------------------------- deleteOffer

  /** deleteOffer's checks: the offer must be the caller's (404), then pending
      (400). */
  function CheckWithdraw(offers: map<nat, Offer>, buyerId: nat, offerId: nat): (r: Result<Offer>)
    ensures (offerId !in offers || offers[offerId].buyerId != buyerId)
            ==> r == Err(Error(404, OfferNotFoundOrNotYours))
    ensures r.Ok? <==> offerId in offers && offers[offerId].buyerId == buyerId && offers[offerId].status == Pending
    ensures (offerId in offers && offers[offerId].buyerId == buyerId && offers[offerId].status != Pending)
            ==> r == Err(Error(400, OnlyPendingDeletable))
    ensures r.Ok? ==> r.value == offers[offerId]
  {
    if offerId !in offers || offers[offerId].buyerId != buyerId then Err(Error(404, OfferNotFoundOrNotYours))
    else if offers[offerId].status != Pending then Err(Error(400, OnlyPendingDeletable))
    else Ok(offers[offerId])
  }

  /** deleteOffer: removes that one pending offer, or nothing. */
  method DeleteOffer(db: Store, buyerId: nat, offerId: nat) returns (r: Result<Offer>)
    requires db.Valid()
    modifies db`offers
    ensures db.Valid()
    ensures r == CheckWithdraw(old(db.offers), buyerId, offerId)
    ensures r.Ok? ==> db.offers == old(db.offers) - {offerId}
    ensures r.Err? ==> db.offers == old(db.offers)
  {
    r := CheckWithdraw(db.offers, buyerId, offerId);
    if r.Ok? {
      db.offers := db.offers - {offerId};
    }
  }

  /** Withdrawing removes only a pending row, so answered offers stay; and it
      frees the (listing, buyer) pair, so the buyer may offer again. */
  lemma WithdrawFreesPair(offers: map<nat, Offer>, buyerId: nat, offerId: nat)
    requires UniqueOfferPairs(offers)
    requires CheckWithdraw(offers, buyerId, offerId).Ok?
    ensures forall k | k in offers && offers[k].status != Pending :: k in offers - {offerId}
    ensures !HasOffer(offers - {offerId}, offers[offerId].listingId, buyerId)
  {
  }

  // ---------------------------------------------------------------- getOfferById

  /** getOfferById: the id must be a positive integer; the offer is shown only
      when the joins with its listing and both users' rows succeed and the caller
      is its buyer or the listing's farmer. */
  function ViewOffer(offers: map<nat, Offer>, listings: map<nat, Listing>, users: map<nat, User>,
                     userId: nat, offerId: Option<int>): (r: Result<Offer>)
    ensures (offerId.None? || offerId.value <= 0) ==> r == Err(Error(400, InvalidOfferId))
    ensures r.Ok? <==>
              && offerId.Some? && offerId.value > 0 && offerId.value in offers
              && offers[offerId.value].listingId in listings
              && offers[offerId.value].buyerId in users
              && listings[offers[offerId.value].listingId].farmerId in users
              && (userId == offers[offerId.value].buyerId
                  || userId == listings[offers[offerId.value].listingId].farmerId)
    ensures r.Ok? ==> r.value == offers[offerId.value]
    ensures r.Err? && offerId.Some? && offerId.value > 0 ==> r.error == Error(404, OfferNotVisible)
  {
    if offerId.None? || offerId.value <= 0 then Err(Error(400, InvalidOfferId))
    else if offerId.value !in offers then Err(Error(404, OfferNotVisible))
    else
      var o := offers[offerId.value];
      if o.listingId !in listings || o.buyerId !in users || listings[o.listingId].farmerId !in users then
        Err(Error(404, OfferNotVisible))
      else if userId != o.buyerId && userId != listings[o.listingId].farmerId then
        Err(Error(404, OfferNotVisible))
      else Ok(o)
  }

  /** A third party never sees an offer. */
  lemma OnlyPartiesSeeOffer(offers: map<nat, Offer>, listings: map<nat, Listing>, users: map<nat, User>,
                            userId: nat, offerId: nat)
    requires offerId in offers && offers[offerId].listingId in listings
    requires userId != offers[offerId].buyerId && userId != listings[offers[offerId].listingId].farmerId
    ensures ViewOffer(offers, listings, users, userId, Some(offerId)).Err?
  {
  }
}
