/** The promotions editor of a profile: when a promotion counts as expired, and the dialog whose
    form builds the create and update requests. Instants are milliseconds since the Unix epoch in
    UTC; the form's date field holds a UTC day. */
module Promotions {
  import opened Common

  /** Milliseconds in a day. */
  const DayMs: int := 86_400_000

  /** A stored promotion. */
  datatype Promotion = Promotion(
    id: string, title: string, description: string, discountText: Option<string>,
    validUntil: Option<int>, isActive: Option<bool>)

  /** `isPromotionValid`: no end date, or an end strictly later than `now`. */
  predicate IsPromotionValid(p: Promotion, now: int) {
    p.validUntil.None? || p.validUntil.value > now
  }

  /** The "Expirée" badge is shown for a promotion with an end date that is no longer valid. */
  predicate ShowsExpiredBadge(p: Promotion, now: int) {
    p.validUntil.Some? && !IsPromotionValid(p, now)
  }

  /** The badge shows exactly when the end date is at or before `now`; the end instant itself
      already counts as expired. */
  lemma ExpiredBadgeIff(p: Promotion, now: int)
    ensures ShowsExpiredBadge(p, now) <==> p.validUntil.Some? && p.validUntil.value <= now
    ensures !IsPromotionValid(p, now) <==> ShowsExpiredBadge(p, now)
  {
  }

  /** Validity only ends: a promotion valid at `later` was valid at every earlier instant. */
  lemma ValidityOnlyEnds(p: Promotion, earlier: int, later: int)
    requires earlier <= later && IsPromotionValid(p, later)
    ensures IsPromotionValid(p, earlier)
  {
  }

  /** The dialog's form. `validUntil` is the date field: `None` for "", else the UTC day. */
  datatype PromotionForm = PromotionForm(
    title: string, description: string, discountText: string, validUntil: Option<int>,
    isActive: bool)

  const BlankForm := PromotionForm("", "", "", None, true)

  /** The fields saved for a promotion: the form's, with the date as the instant of its UTC
      midnight, or null. */
  datatype PromotionData = PromotionData(
    title: string, description: string, discountText: string, validUntil: Option<int>,
    isActive: bool)

  /** The request the dialog sends. */
  datatype PromotionRequest =
    | UpdateRequest(id: string, updates: PromotionData)
    | CreateRequest(data: PromotionData, profileId: string, displayOrder: nat)

  /** The UTC day of an instant: `toISOString().split('T')[0]`. */
  function DayOf(t: int): (d: int)
    ensures d * DayMs <= t < d * DayMs + DayMs
  {
    t / DayMs
  }

  /** The instant a form day is saved as: `new Date("YYYY-MM-DD")` is that day's UTC midnight. */
  function MidnightOf(d: int): (t: int)
    ensures t % DayMs == 0
  {
    d * DayMs
  }

  /** A day survives saving and re-opening. */
  lemma DayRoundTrip(d: int)
    ensures DayOf(MidnightOf(d)) == d
  {
  }

  /** The saved fields of a form. */
  function FormToData(f: PromotionForm): (data: PromotionData)
    ensures data.validUntil.None? <==> f.validUntil.None?
    ensures f.validUntil.Some? ==> DayOf(data.validUntil.value) == f.validUntil.value
    ensures data.title == f.title && data.description == f.description
      && data.discountText == f.discountText && data.isActive == f.isActive
  {
    DayRoundTrip(f.validUntil.GetOr(0));
    PromotionData(f.title, f.description, f.discountText,
      match f.validUntil case Some(d) => Some(MidnightOf(d)) case None => None,
      f.isActive)
  }

  /** The form filled from a promotion: a missing discount text is "", a missing flag is true,
      and the end date becomes its UTC day. */
  function FormOf(p: Promotion): (f: PromotionForm)
    ensures f.title == p.title && f.description == p.description
    ensures f.discountText == p.discountText.GetOr("")
    ensures f.isActive == p.isActive.GetOr(true)
    ensures f.validUntil.None? <==> p.validUntil.None?
    ensures p.validUntil.Some? ==> f.validUntil.value * DayMs <= p.validUntil.value < f.validUntil.value * DayMs + DayMs
  {
    PromotionForm(p.title, p.description, p.discountText.GetOr(""),
      match p.validUntil case Some(t) => Some(DayOf(t)) case None => None,
      p.isActive.GetOr(true))
  }

  /** Opening a promotion and saving it unchanged moves its end back to the UTC midnight of its
      day: never later, by less than a day. */
  lemma ResaveTruncatesEnd(p: Promotion)
    requires p.validUntil.Some?
    ensures var t := FormToData(FormOf(p)).validUntil.value;
      t % DayMs == 0 && t <= p.validUntil.value < t + DayMs
  {
  }

  /** So a promotion still valid before an unchanged save can be expired after it. */
  lemma ResaveCanExpire()
    ensures var p := Promotion("p", "t", "d", None, Some(DayMs + 5), Some(true));
      var saved := FormToData(FormOf(p));
      IsPromotionValid(p, DayMs + 1)
      && !IsPromotionValid(p.(validUntil := saved.validUntil), DayMs + 1)
  {
    var p := Promotion("p", "t", "d", None, Some(DayMs + 5), Some(true));
    assert DayOf(DayMs + 5) == 1;
  }

  class PromotionsManager {
    var dialogOpen: bool
    var editingPromotion: Option<Promotion>
    var formData: PromotionForm

    constructor ()
      ensures !dialogOpen && editingPromotion.None? && formData == BlankForm
    {
      dialogOpen := false;
      editingPromotion := None;
      formData := BlankForm;
    }

    /** `resetForm`: a blank form and no promotion being edited. */
    method ResetForm()
      modifies this`formData, this`editingPromotion
      ensures formData == BlankForm && editingPromotion.None?
    {
      formData := BlankForm;
      editingPromotion := None;
    }

    /** `handleOpenDialog`: edits the given promotion, or starts a blank one; the dialog opens. */
    method HandleOpenDialog(promotion: Option<Promotion>)
      modifies this
      ensures dialogOpen
      ensures editingPromotion == promotion
      ensures promotion.Some? ==> formData == FormOf(promotion.value)
      ensures promotion.None? ==> formData == BlankForm
    {
      if promotion.Some? {
        editingPromotion := promotion;
        formData := FormOf(promotion.value);
      } else {
        ResetForm();
      }
      dialogOpen := true;
    }

    /** `handleSubmit`. `promotionCount` is the number of promotions listed, `saved` whether the
        store accepted the request. Returns the request sent; after a success the dialog closes
        and the form is reset, after a failure nothing changes. */
    method HandleSubmit(profileId: string, promotionCount: nat, saved: bool)
      returns (request: PromotionRequest)
      modifies this
      ensures old(editingPromotion).Some? ==>
        request == UpdateRequest(old(editingPromotion).value.id, FormToData(old(formData)))
      ensures old(editingPromotion).None? ==>
        request == CreateRequest(FormToData(old(formData)), profileId, promotionCount)
      ensures saved ==> !dialogOpen && formData == BlankForm && editingPromotion.None?
      ensures !saved ==>
        dialogOpen == old(dialogOpen) && formData == old(formData)
        && editingPromotion == old(editingPromotion)
    {
      var promotionData := FormToData(formData);
      if editingPromotion.Some? {
        request := UpdateRequest(editingPromotion.value.id, promotionData);
      } else {
        request := CreateRequest(promotionData, profileId, promotionCount);
      }
      if saved {
        dialogOpen := false;
        ResetForm();
      }
    }
  }
}
