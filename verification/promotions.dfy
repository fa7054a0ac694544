/** A store's promotions as its staff see them: submitting one for
    moderation and listing the newest. Both sit behind the promotions
    router's gates (see module Routes). */
module Promotions {
  import opened Basics
  import opened Model

  predicate IsDigit(c: char) {
    '0' <= c <= '9'
  }

  predicate AllDigits(s: string) {
    forall i :: 0 <= i < |s| ==> IsDigit(s[i])
  }

  /** The decimal amount format `^\d+(\.\d{1,2})?$`: digits, optionally
      followed by a point and one or two digits. */
  predicate IsAmountLiteral(s: string) {
    || (|s| >= 1 && AllDigits(s))
    || (|s| >= 3 && s[|s| - 2] == '.' && AllDigits(s[..|s| - 2]) && IsDigit(s[|s| - 1]))
    || (|s| >= 4 && s[|s| - 3] == '.' && AllDigits(s[..|s| - 3]) && IsDigit(s[|s| - 2]) && IsDigit(s[|s| - 1]))
  }

  lemma AmountLiteralExamples()
    ensures IsAmountLiteral("0") && IsAmountLiteral("12.5") && IsAmountLiteral("12.50")
    ensures !IsAmountLiteral("") && !IsAmountLiteral(".5") && !IsAmountLiteral("1.") && !IsAmountLiteral("1.234")
  {
    assert AllDigits("12");
    assert !IsDigit('.');
    assert ".5"[0] == '.' && !AllDigits(".5");
    assert "1."[1] == '.' && !AllDigits("1.");
    assert "1.234"[1] == '.' && !AllDigits("1.234");
    assert "1.234"[3] == '3' && "1.234"[2] == '2';
  }

  /** The body of a promotion request after defaults: `None` is a field
      that is absent (or, for the coupon code, null). */
  datatype PromotionInput = PromotionInput(
    title: string, promoType: PromoType, value: Option<string>,
    couponCode: Option<string>, priority: Option<int>)

  predicate InputValid(input: PromotionInput) {
    && Utf16Length(input.title) >= 2
    && (input.value.Some? ==> IsAmountLiteral(input.value.value))
    && (input.priority.Some? ==> input.priority.value >= 0)
  }

  /** Submits a promotion of the store for moderation and answers its id
      and status. It always starts PENDING, is recorded as created by the
      caller, and keeps a coupon code only when it is a COUPON promotion;
      the value defaults to "0" and the priority to 0. */
  function CreatePromotion(db: Db, storeId: Id, callerId: Id, input: PromotionInput): (r: Outcome<(Id, PromoStatus)>)
    ensures !InputValid(input) <==> r.result.Err?
    ensures r.result.Err? ==> r == Outcome(db, Err(ValidationFailed))
    ensures r.result.Ok? ==>
      && |r.db.promotions| == |db.promotions| + 1
      && r.db.promotions[..|db.promotions|] == db.promotions
      && r.db == db.(promotions := r.db.promotions, nextId := db.nextId + 1)
      && var p := r.db.promotions[|db.promotions|];
         && r.result.value == (p.id, p.status)
         && p.id == db.nextId && p.storeId == storeId && p.title == input.title && p.promoType == input.promoType
         && p.status == Pending && p.createdById == callerId
         && p.approvedById.None? && p.rejectReason.None?
         && (p.promoType == Coupon ==> p.couponCode == input.couponCode)
         && (p.promoType != Coupon ==> p.couponCode.None?)
         && p.value == input.value.GetOr("0") && IsAmountLiteral(p.value)
         && p.priority == input.priority.GetOr(0)
  {
    if !InputValid(input) then Outcome(db, Err(ValidationFailed))
    else
      var coupon := if input.promoType == Coupon then input.couponCode else None;
      var priority: nat := if input.priority.Some? then input.priority.value else 0;
      var p := Promotion(db.nextId, storeId, input.title, input.promoType, input.value.GetOr("0"),
                         coupon, Pending, callerId, None, None, priority);
      assert IsAmountLiteral("0") by { AmountLiteralExamples(); }
      Outcome(db.(promotions := db.promotions + [p], nextId := db.nextId + 1), Ok((p.id, p.status)))
  }

  /** A one-emoji title is long enough: it is two code units. */
  lemma EmojiTitleAccepted(db: Db, storeId: Id, callerId: Id, t: PromoType)
    ensures CreatePromotion(db, storeId, callerId, PromotionInput("\U{1F600}", t, None, None, None)).result.Ok?
  {
    EmojiIsTwoUnits();
  }

  /** The store's promotions in table order (`where: { storeId }`). */
  function PromotionsOf(ps: seq<Promotion>, storeId: Id): (r: seq<Promotion>)
    ensures forall p :: p in r <==> p in ps && p.storeId == storeId
  {
    if |ps| == 0 then []
    else PromotionsOf(ps[..|ps| - 1], storeId)
         + (if ps[|ps| - 1].storeId == storeId then [ps[|ps| - 1]] else [])
  }

  /** The listing: the store's 100 newest promotions, newest first. */
  function ListPromotions(db: Db, storeId: Id): (r: seq<Promotion>)
    ensures |r| == Min(100, |PromotionsOf(db.promotions, storeId)|)
    ensures forall i :: 0 <= i < |r| ==>
      r[i] == PromotionsOf(db.promotions, storeId)[|PromotionsOf(db.promotions, storeId)| - 1 - i]
    ensures forall p :: p in r ==> p in db.promotions && p.storeId == storeId
    ensures |PromotionsOf(db.promotions, storeId)| <= 100 ==>
      forall p :: p in db.promotions && p.storeId == storeId ==> p in r
  {
    Newest(PromotionsOf(db.promotions, storeId), 100)
  }

  /** A promotion just submitted heads its store's listing, and no other
      store's listing changes. */
  lemma {:induction false} CreatedPromotionListedFirst(db: Db, storeId: Id, callerId: Id, input: PromotionInput, other: Id)
    requires CreatePromotion(db, storeId, callerId, input).result.Ok?
    requires other != storeId
    ensures var r := CreatePromotion(db, storeId, callerId, input);
      && ListPromotions(r.db, storeId)[0] == r.db.promotions[|db.promotions|]
      && ListPromotions(r.db, other) == ListPromotions(db, other)
  {
    var r := CreatePromotion(db, storeId, callerId, input);
    var p := r.db.promotions[|db.promotions|];
    assert r.db.promotions == db.promotions + [p];
    assert r.db.promotions[..|r.db.promotions| - 1] == db.promotions;
    var mine := PromotionsOf(r.db.promotions, storeId);
    assert mine == PromotionsOf(db.promotions, storeId) + [p];
    assert PromotionsOf(r.db.promotions, other) == PromotionsOf(db.promotions, other);
  }
}
