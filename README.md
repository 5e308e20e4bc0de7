# Account entitlements and lifetime checkout, modelled in Dafny

This project models two pieces of a content-commerce web front end.

- The `useAccount` hook (`src/hooks/use-account.ts`) takes the viewer and the
  viewer's billing accounts and derives a record of entitlement flags:
  membership, ownership, team ownership, the selected owned account, gift
  membership, the disabled state and the first account owner.
- The lifetime-membership pricing widget
  (`src/components/pricing/lifetime-pricing-widget.tsx`) has three parts:
  - the price it shows and its discount badge (`PlanPrice`);
  - its access button (`GetAccessButton`);
  - what a click on that button does (`onClickCheckout`). The click either
    does nothing, redirects to the payment processor's checkout, or
    navigates to the email-capture page and switches the `loaderOn` spinner on.

The files:

- `js_arrays.dfy` (module `JsArrays`): `Option` (JavaScript's `undefined` or
  a value), and the array methods the hook is written in (`some`, `find`,
  `includes`). They are recursive functions, each proved against a
  quantified statement of its result.
- `use_account.dfy` (module `UseAccount`): the data model (viewer, account,
  member, owner, subscription, entitlement record). Each flag computed from
  the accounts has its own function, specified by a quantified reference
  definition or by the subscription-0 fields it reads. `Resolve` is the hook
  as a whole. Its contract ties every field of the record to the inputs and
  states the relations between flags. Further lemmas relate the flags of one
  snapshot.
- `lifetime_pricing.dfy` (module `LifetimePricing`): the price and discount
  arithmetic, the button view, and the pure function `CheckoutEffect` that
  states what a click must do. The class `LifetimePricingWidget` holds
  `loaderOn`. Its method `OnClickCheckout` follows the source's three
  branches and is proved against `CheckoutEffect`.

Modelling choices:

- User ids are integers compared by equality, matching the source's `===`.
- The viewer's id is optional. Comparing `undefined === undefined` is true in
  JavaScript, so an id-less viewer "owns" every account that has no owner.
  The model reproduces this; see `IdlessViewerOwnsOwnerlessAccount`.
- Accounts that have not loaded yet (`userAccounts` undefined) are `None`.
  They give the same snapshot as an empty list (`NoAccountsNoEntitlement`).
- The hook reads `viewer.id` without optional chaining inside the member and
  owner callbacks.
  `Resolve` therefore requires a viewer whenever the account list is
  non-empty. That is exactly when the source would otherwise throw.
- The clock is a parameter. A period end is `undefined`, `null` or a parsed
  instant. `isPast(new Date(x))` is `IsPast`. An undefined expiration is an
  invalid date and is never in the past. A `null` one is the epoch, so it has
  passed at any later instant (`NullPeriodEndHasLapsed`).
- Statuses and subscription types are strings, compared with the source's
  literals.
- `Math.round(n / d)` is modelled exactly for integers. It rounds to the
  nearest integer, with halves going up, and works for divisors of either
  sign. A zero price gives an infinity, as the JavaScript division does.
- The site's email validator is a function-valued parameter. The model
  assumes it rejects `undefined`. Otherwise the redirect branch's
  `viewer.email` could read through an absent viewer.
- The redirect and the router push are returned as an `Effect` value. The
  email-capture query is an ordered list of key/value pairs.

Notes on the code:

- With no price id, or an empty one, a click returns and has no effect.
- The email check is the site's `emailIsValid`, a parameter.
- Ownership compares `account.owner?.id` with `viewer.id`. With both
  undefined, the comparison is true.

## Model

| member | source | states |
|---|---|---|
| JsArrays.ArraySome | src/hooks/use-account.ts:22-24 | `some` is true exactly when some element satisfies the predicate |
| JsArrays.ArrayFind | src/hooks/use-account.ts:43-51 | `find` is undefined exactly when no element matches; otherwise it returns the element at the first matching index |
| JsArrays.ArrayIncludes | src/hooks/use-account.ts:12 | `includes` is true exactly when the value occurs in the array |
| UseAccount.IsLifetimeMember | src/hooks/use-account.ts:12 | lifetime member exactly when a viewer is present and its roles contain `lifetime_subscriber` |
| UseAccount.IsActiveAccountMember | src/hooks/use-account.ts:14-28 | true exactly when one single account both lists the viewer among its members and has a subscription with status `active` |
| UseAccount.IsAccountOwner | src/hooks/use-account.ts:29-33 | true exactly when some account's owner id equals the viewer's id |
| UseAccount.IsTeamAccountOwner | src/hooks/use-account.ts:35-39 | true exactly when some account is owned by the viewer and has capacity above 1 |
| UseAccount.SelectedAccount | src/hooks/use-account.ts:41-51 | present exactly when some account is owned by the viewer with an active subscription; it is then the first such account in input order |
| UseAccount.GiftExpiration | src/hooks/use-account.ts:53 | the period end of subscription 0 of the selected account, whichever subscription made it active (undefined, null or an instant); undefined when there is no selected account or it has no subscription |
| UseAccount.IsPast | src/hooks/use-account.ts:54 | expired exactly when the expiration is an instant strictly before now, or `null` (the epoch) with now after the epoch; an undefined one never expires |
| UseAccount.IsGiftMembership | src/hooks/use-account.ts:55-60 | true exactly when subscription 0 of the selected account has type `gift`, a status among active/past_due/trialing, and no expiration that has passed |
| UseAccount.HasStripeAccount | src/hooks/use-account.ts:63 | true exactly when the selected account has a non-empty customer id |
| UseAccount.IsDisabled | src/hooks/use-account.ts:65-70 | true exactly when subscription 0 of the selected account has status incomplete, canceled, incomplete_expired or unpaid; false with no selected account |
| UseAccount.AccountOwner | src/hooks/use-account.ts:102 | absent exactly when no account has an owner; otherwise it is the owner of the first account that has one, whoever the viewer is |
| UseAccount.Resolve | src/hooks/use-account.ts:10-103 | the hook's record: every field is the corresponding derivation over the loaded accounts and the viewer's id (or the viewer's own fields); team owner implies owner; a selected account implies owner; team member exactly when an active member and not an owner; gift membership and disabled never hold together; with no selected account there is no gift, no disabled state, no customer id and no expiration; loading exactly when the query status is loading |
| UseAccount.DisabledExcludesGift | src/hooks/use-account.ts:55-70 | the gift status set and the disabling status set are disjoint, so both flags are never true at once |
| UseAccount.SelectedIsFirstOwnedActive | src/hooks/use-account.ts:41-51 | if account i is the first owned account with an active subscription, the hook selects exactly account i |
| UseAccount.NoAccountsNoEntitlement | src/hooks/use-account.ts:14-51 | accounts not yet loaded give the same record as an empty list; neither yields an account, an owner or any member/owner flag |
| UseAccount.GiftLapsesAtPeriodEnd | src/hooks/use-account.ts:53-60 | an active gift on the selected account is a membership exactly while now is not after its period end, and its end is the reported expiration |
| UseAccount.NullPeriodEndHasLapsed | src/hooks/use-account.ts:53-60 | an active gift whose period end is `null` is reported with a `null` expiration and is a membership only at or before the epoch |
| UseAccount.MemberAndActiveMustShareAccount | src/hooks/use-account.ts:14-28 | a member match on a lapsed account plus an active subscription on another account does not make the viewer an active member |
| UseAccount.SeatsDecideTeamOwnership | src/hooks/use-account.ts:29-39 | owning a one-seat account gives owner but not team owner; owning a three-seat account gives team owner |
| UseAccount.FirstSubscriptionDecides | src/hooks/use-account.ts:41-70 | an account selected through its second, active gift subscription is disabled and is no gift membership when its first subscription is canceled |
| UseAccount.IdlessViewerOwnsOwnerlessAccount | src/hooks/use-account.ts:29-33 | a viewer without an id is the owner of an account without an owner |
| LifetimePricing.RoundDiv | src/components/pricing/lifetime-pricing-widget.tsx:32 | `Math.round(n / d)` is the integer r with r - 1/2 <= n/d < r + 1/2, for either sign of d |
| LifetimePricing.PriceToDisplay | src/components/pricing/lifetime-pricing-widget.tsx:30 | the displayed price is the discounted price when that is truthy (defined and non-zero, of either sign), and the list price otherwise |
| LifetimePricing.DiscountPercentage | src/components/pricing/lifetime-pricing-widget.tsx:31-33 | no badge exactly when the discount is falsy; otherwise the saving times 100 over the price, rounded to nearest with halves up; an infinity for a zero price |
| LifetimePricing.DiscountInPercentRange | src/components/pricing/lifetime-pricing-widget.tsx:29-33 | with 0 < discounted <= price, the discounted price is shown and the percentage is an integer in 0..100 |
| LifetimePricing.LifetimePlanShowsListPrice | src/components/pricing/lifetime-pricing-widget.tsx:255-269 | the widget's plan shows 500 and no discount badge |
| LifetimePricing.GetAccessButton | src/components/pricing/lifetime-pricing-widget.tsx:81-97 | disabled exactly while prices load; shows the spinner exactly when the loader is on or prices load, and the label otherwise |
| LifetimePricing.CheckoutEffect | src/components/pricing/lifetime-pricing-widget.tsx:206-249 | no effect exactly when the price id is absent or empty; otherwise exactly one branch runs: a valid email yields a checkout redirect with the price id, email, auth token, quantity 1 and paths `/confirm/forever` and `/pricing/forever`, and no entitlement check takes part; any other email yields navigation to `/forever/email?` with `priceId` then `quantity`=`1` |
| LifetimePricing.LifetimePricingWidget.constructor | src/components/pricing/lifetime-pricing-widget.tsx:153 | `loaderOn` starts false, with no click recorded |
| LifetimePricing.LifetimePricingWidget.OnClickCheckout | src/components/pricing/lifetime-pricing-widget.tsx:206-249 | the click's effect is `CheckoutEffect`'s. `loaderOn` becomes true only by an email-capture click and is never reset. It stays on exactly when some click so far went to email capture |
| LifetimePricing.LifetimePricingWidget.Button | src/components/pricing/lifetime-pricing-widget.tsx:286-291 | the widget's button is never disabled; it shows the spinner exactly when `loaderOn` is set, and the label "Get Lifetime Access" otherwise |
| LifetimePricing.ClickTwice | src/components/pricing/lifetime-pricing-widget.tsx:206-249 | after an email-capture click the button stays a spinner through a later click; after two clicks without email capture it still shows its label |

## Left out

- Data fetching is not modelled. The viewer context (`useViewer`) and the
  accounts query (`trpc ... useQuery`) are input parameters of `Resolve`,
  together with the query's status.
- The `console.debug` logging of the hook is not modelled. It has no effect
  on the record.
- The wall clock used by date-fns is the parameter `now`. Date parsing of
  `current_period_end` strings is not modelled: a period end is given as an
  instant. An unparseable string would be an invalid date, which behaves for
  `IsPast` like an undefined one (`Missing`), though the hook would report the
  string itself as the expiration.
- UseAccount.Resolve: flags that JavaScript leaves `undefined` are `false`
  in the model. This happens with no viewer, accounts not loaded, or no
  roles array. The same goes for `account` being `false` rather than
  `undefined`, which becomes `None`. Consumers only test truthiness.
- UseAccount.Resolve: an absent `members` or `subscriptions` array is the
  empty sequence. A member object without an id is not represented.
- Analytics calls (`track`) and the `await` ordering between them and the
  redirect are not modelled.
- The internals of the checkout redirect helper, the router, and the email
  validator are not part of this model. The first two are recorded as the
  returned `Effect`. The validator is a parameter that is assumed to reject
  `undefined`.
- Percent-encoding by `URLSearchParams` is not modelled. The query is an
  ordered list of key/value pairs.
- Reading the price id from the process environment is not modelled. The
  price id is an optional string given to the widget's constructor.
- JSX rendering, styling, the check-mark icon and the `PlanFeatures` list
  with its `slugify` keys are presentation only.
- LifetimePricing.DiscountPercentage: prices are integers. JavaScript
  floating-point rounding of non-integer or very large prices is not
  modelled.
- The content landing page (`src/pages/learn/index.tsx`) is not part of
  this model. It is a content query string, schema declarations and
  static-props I/O.
- The sale header banner is not part of this model. It is a feature-flag
  lookup and a link.
- The playback speed selector is not part of this model. It is a listbox
  widget over a constant list of decimal speeds.
- The hook keeps no state between calls. That makes it idempotent by
  construction in a functional model, so there is no lemma for it.
