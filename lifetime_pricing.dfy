/**
 The lifetime-membership pricing widget: the price it shows (`PlanPrice`),
 the label and enabled state of its access button (`GetAccessButton`), and
 what a click on that button does (`onClickCheckout`), including the
 `loaderOn` state the click switches on.

 The two collaborators a click calls, the payment processor's checkout
 redirect and the router, are modelled as the `Effect` the click returns.
 */
module LifetimePricing {
  import opened JsArrays
  import UseAccount

  const SUCCESS_PATH := "/confirm/forever"
  const CANCEL_PATH := "/pricing/forever"
  const EMAIL_CAPTURE_PATH := "/forever/email?"

  /** The widget buys one seat; `QUANTITY_TEXT` is `quantity.toString()`. */
  const QUANTITY := 1
  const QUANTITY_TEXT := "1"

  const ACCESS_LABEL := "Get Lifetime Access"

  /** The widget's hard-coded plan: 500 dollars, no discount. */
  const LIFETIME_PLAN := Plan(500, None)

  /** The widget never waits for prices. */
  const PRICES_LOADING := false

  // ---------------------------------------------------------------------------
  // PlanPrice

  datatype Plan = Plan(price: int, priceDiscounted: Option<int>)

  /** JavaScript truthiness of an optional integer: defined and not 0. */
  predicate Truthy(n: Option<int>) {
    n.Some? && n.value != 0
  }

  /** A number `Math.round` can return from an integer quotient: an integer,
      or an infinity when the divisor is 0. */
  datatype Rounded = Finite(value: int) | Infinite(positive: bool)

  /** `Math.round(n / d)`: the integer nearest to n/d, halves rounded up. */
  function RoundDiv(n: int, d: int): (r: int)
    requires d != 0
    ensures d > 0 ==> 2 * d * r - d <= 2 * n < 2 * d * r + d
    ensures d < 0 ==> 2 * d * r + d < 2 * n <= 2 * d * r - d
  {
    if d > 0 then (2 * n + d) / (2 * d) else (-2 * n - d) / (-2 * d)
  }

  /** `price_discounted || price`. */
  function PriceToDisplay(plan: Plan): (r: int)
    ensures Truthy(plan.priceDiscounted) ==> r == plan.priceDiscounted.value
    ensures !Truthy(plan.priceDiscounted) ==> r == plan.price
  {
    if Truthy(plan.priceDiscounted) then plan.priceDiscounted.value else plan.price
  }

  /** `price_discounted ? Math.round(((price - price_discounted) * 100) / price) : null`. */
  function DiscountPercentage(plan: Plan): (r: Option<Rounded>)
    ensures r.None? <==> !Truthy(plan.priceDiscounted)
    ensures r.Some? && plan.price != 0 ==> (
      && r.value.Finite?
      && var saved := (plan.price - plan.priceDiscounted.value) * 100;
         var p := plan.price;
         (p > 0 ==> 2 * p * r.value.value - p <= 2 * saved < 2 * p * r.value.value + p)
         && (p < 0 ==> 2 * p * r.value.value + p < 2 * saved <= 2 * p * r.value.value - p))
    ensures r.Some? && plan.price == 0 ==> r.value == Infinite(plan.priceDiscounted.value < 0)
  {
    if !Truthy(plan.priceDiscounted) then None
    else
      var saved := (plan.price - plan.priceDiscounted.value) * 100;
      if plan.price == 0 then Some(Infinite(saved > 0))
      else Some(Finite(RoundDiv(saved, plan.price)))
  }

  /** With a real discount (0 < discounted <= price) the badge shows a
      percentage between 0 and 100, and the shown price is the discounted one. */
  lemma DiscountInPercentRange(plan: Plan)
    requires plan.priceDiscounted.Some? && 0 < plan.priceDiscounted.value <= plan.price
    ensures PriceToDisplay(plan) == plan.priceDiscounted.value
    ensures DiscountPercentage(plan).Some? && DiscountPercentage(plan).value.Finite?
    ensures 0 <= DiscountPercentage(plan).value.value <= 100
  {
    var p := plan.price;
    var saved := (p - plan.priceDiscounted.value) * 100;
    var v := RoundDiv(saved, p);
    assert DiscountPercentage(plan) == Some(Finite(v));
    assert 0 <= saved < 100 * p;
    if v < 0 {
      MulMonotone(p, v, -1);
    } else if v > 100 {
      MulMonotone(p, 101, v);
    }
  }

  lemma MulMonotone(p: int, a: int, b: int)
    requires p > 0 && a <= b
    ensures p * a <= p * b
  {
    assert p * b - p * a == p * (b - a);
  }

  /** The widget's own plan shows its list price and no discount badge. */
  lemma LifetimePlanShowsListPrice()
    ensures PriceToDisplay(LIFETIME_PLAN) == 500
    ensures DiscountPercentage(LIFETIME_PLAN).None?
  {
  }

  // ---------------------------------------------------------------------------
  // GetAccessButton

  datatype ButtonContent = Spinner | Label(text: string)

  datatype AccessButton = AccessButton(disabled: bool, content: ButtonContent)

  function GetAccessButton(caption: string, loaderOn: bool, pricesLoading: bool): (b: AccessButton)
    ensures b.disabled <==> pricesLoading
    ensures b.content.Spinner? <==> loaderOn || pricesLoading
    ensures b.content.Label? ==> b.content.text == caption
  {
    AccessButton(pricesLoading, if loaderOn || pricesLoading then Spinner else Label(caption))
  }

  // ---------------------------------------------------------------------------
  // onClickCheckout

  /** The arguments of `redirectToStandardCheckout`. */
  datatype CheckoutRequest = CheckoutRequest(
    priceId: string,
    email: string,
    authToken: Option<string>,
    quantity: int,
    successPath: string,
    cancelPath: string)

  /** What one click does outside the widget: nothing, a redirect to the
      payment processor's checkout, or a `router.push` to a path followed by
      its query parameters in order. */
  datatype Effect =
    | NoEffect
    | RedirectToCheckout(request: CheckoutRequest)
    | Navigate(path: string, query: seq<(string, string)>)

  /** `viewer?.email`. */
  function ViewerEmail(viewer: Option<UseAccount.Viewer>): Option<string> {
    if viewer.Some? then viewer.value.email else None
  }

  /** What a click must do, by the three branches of `onClickCheckout`. The
      validator is the site's `emailIsValid`, given as a parameter; it rejects
      `undefined`, so a valid email comes from a present viewer. */
  function CheckoutEffect(priceId: Option<string>, email: Option<string>, authToken: Option<string>,
                          emailIsValid: Option<string> -> bool): (e: Effect)
    requires !emailIsValid(None)
    ensures e.NoEffect? <==> priceId.None? || priceId.value == ""
    ensures e.RedirectToCheckout? <==> priceId.Some? && priceId.value != "" && emailIsValid(email)
    ensures e.RedirectToCheckout? ==>
      e.request == CheckoutRequest(priceId.value, email.value, authToken, 1, "/confirm/forever", "/pricing/forever")
    ensures e.Navigate? ==>
      e.path == "/forever/email?" && e.query == [("priceId", priceId.value), ("quantity", "1")]
  {
    if priceId.None? || priceId.value == "" then NoEffect
    else if emailIsValid(email) then
      RedirectToCheckout(CheckoutRequest(priceId.value, email.value, authToken, QUANTITY, SUCCESS_PATH, CANCEL_PATH))
    else
      Navigate(EMAIL_CAPTURE_PATH, [("priceId", priceId.value), ("quantity", QUANTITY_TEXT)])
  }

  /** The widget's state across renders: the configured price id, the email
      validator and `loaderOn`. `Clicks` records the effect of every click so far. */
  class LifetimePricingWidget {
    const priceId: Option<string>
    const emailIsValid: Option<string> -> bool
    var loaderOn: bool
    ghost var Clicks: seq<Effect>

    /** `loaderOn` is on exactly when some click so far went to email capture. */
    ghost predicate Valid()
      reads this
    {
      !emailIsValid(None)
      && (loaderOn <==> exists i :: 0 <= i < |Clicks| && Clicks[i].Navigate?)
    }

    constructor (priceId: Option<string>, emailIsValid: Option<string> -> bool)
      requires !emailIsValid(None)
      ensures Valid()
      ensures this.priceId == priceId && this.emailIsValid == emailIsValid
      ensures !loaderOn && Clicks == []
    {
      this.priceId := priceId;
      this.emailIsValid := emailIsValid;
      loaderOn := false;
      Clicks := [];
    }

    /** The access button as the widget renders it now. */
    function Button(): (b: AccessButton)
      reads this
      ensures !b.disabled
      ensures b.content == (if loaderOn then Spinner else Label(ACCESS_LABEL))
    {
      GetAccessButton(ACCESS_LABEL, loaderOn, PRICES_LOADING)
    }

    /** `onClickCheckout`, for the viewer and auth token of the current render. */
    method OnClickCheckout(viewer: Option<UseAccount.Viewer>, authToken: Option<string>) returns (effect: Effect)
      requires Valid()
      modifies this
      ensures Valid()
      ensures effect == CheckoutEffect(priceId, ViewerEmail(viewer), authToken, emailIsValid)
      ensures loaderOn == (old(loaderOn) || effect.Navigate?)
      ensures Clicks == old(Clicks) + [effect]
    {
      if priceId.None? || priceId.value == "" {
        effect := NoEffect;
      } else if emailIsValid(ViewerEmail(viewer)) {
        effect := RedirectToCheckout(CheckoutRequest(
          priceId.value, viewer.value.email.value, authToken, QUANTITY, SUCCESS_PATH, CANCEL_PATH));
      } else {
        effect := Navigate(EMAIL_CAPTURE_PATH, [("priceId", priceId.value), ("quantity", QUANTITY_TEXT)]);
        loaderOn := true;
      }
      ghost var before := Clicks;
      Clicks := Clicks + [effect];
      assert forall i :: 0 <= i < |before| ==> Clicks[i] == before[i];
      assert Clicks[|before|] == effect;
    }
  }

  /** A click with a valid email leaves the button as it was; a click that
      goes to email capture turns it into a spinner, and no later click turns
      it back. */
  method ClickTwice(w: LifetimePricingWidget, viewer: Option<UseAccount.Viewer>, authToken: Option<string>)
    returns (first: Effect, second: Effect)
    requires w.Valid() && !w.loaderOn
    modifies w
    ensures first.Navigate? ==> w.Button().content == Spinner
    ensures !first.Navigate? && !second.Navigate? ==> w.Button().content == Label(ACCESS_LABEL)
  {
    first := w.OnClickCheckout(viewer, authToken);
    second := w.OnClickCheckout(viewer, authToken);
  }
}
