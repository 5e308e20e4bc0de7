/**
 The account-entitlement derivation of the `useAccount` hook: from the viewer
 and the viewer's billing accounts (already fetched), the record of flags the
 rest of the site uses to gate what it shows.

 Every flag is a `some` / `find` / `includes` projection over the inputs. The
 flags computed from the account list have a function each, whose contract
 states the flag against a reference definition; `Resolve` assembles the
 record, and the lemmas after it state relations between the flags.
 */
module UseAccount {
  import opened JsArrays

  /** User ids; the source compares them with `===`. */
  type UserId = int

  /** An instant in milliseconds since the epoch, the value `new Date(..)` holds. */
  type Instant = int

  const LIFETIME_SUBSCRIBER := "lifetime_subscriber"
  const ACTIVE := "active"
  const GIFT := "gift"

  /** Statuses under which a gift subscription is a live membership. */
  const GIFT_STATUSES: seq<string> := ["active", "past_due", "trialing"]

  /** Statuses that disable the selected account. */
  const DISABLED_STATUSES: seq<string> := ["incomplete", "canceled", "incomplete_expired", "unpaid"]

  /** The viewer; `id` is absent for a viewer the site does not know by id. */
  datatype Viewer = Viewer(
    id: Option<UserId>,
    email: Option<string>,
    roles: seq<string>,
    isInstructor: bool,
    instructorId: Option<int>)

  datatype Member = Member(id: UserId)

  datatype Owner = Owner(id: UserId)

  /** A date field as the hook reads it: `undefined`, `null`, or a date string
      that parses to an instant. */
  datatype DateField = Missing | Null | At(instant: Instant)

  /** `kind` is the subscription's `type` field. */
  datatype Subscription = Subscription(status: string, kind: string, currentPeriodEnd: DateField)

  /** A billing account; an absent `members` or `subscriptions` array is the empty sequence. */
  datatype Account = Account(
    owner: Option<Owner>,
    capacity: int,
    members: seq<Member>,
    subscriptions: seq<Subscription>,
    stripeCustomerId: Option<string>)

  /** The status the accounts query reports. */
  datatype QueryStatus = Loading | Success | Error

  /** The record the hook returns. A flag that JavaScript leaves `undefined`
      (no viewer, accounts not loaded) is `false` here: callers only test truthiness. */
  datatype Entitlement = Entitlement(
    account: Option<Account>,
    isActiveAccountMember: bool,
    isTeamAccountOwner: bool,
    isAccountOwner: bool,
    isGiftMembership: bool,
    giftExpiration: DateField,
    isTeamMember: bool,
    hasStripeAccount: bool,
    isDisabled: bool,
    isInstructor: bool,
    isLifetimeMember: bool,
    instructorId: Option<int>,
    accountLoading: bool,
    accountOwner: Option<Owner>)

  // ---------------------------------------------------------------------------
  // Reference definitions

  /** `account.owner?.id`. */
  function OwnerId(a: Account): Option<UserId> {
    match a.owner
    case None => None
    case Some(o) => Some(o.id)
  }

  ghost predicate ListsMember(a: Account, vid: Option<UserId>) {
    exists j :: 0 <= j < |a.members| && Some(a.members[j].id) == vid
  }

  ghost predicate HasActiveSubscription(a: Account) {
    exists k :: 0 <= k < |a.subscriptions| && a.subscriptions[k].status == ACTIVE
  }

  /** The accounts the hook may select: owned by the viewer, with an active subscription. */
  ghost predicate OwnsActive(a: Account, vid: Option<UserId>) {
    OwnerId(a) == vid && HasActiveSubscription(a)
  }

  // ---------------------------------------------------------------------------
  // The derivations, one per flag

  /** `viewer?.roles?.includes('lifetime_subscriber')`. */
  function IsLifetimeMember(viewer: Option<Viewer>): (r: bool)
    ensures r <==> viewer.Some? && LIFETIME_SUBSCRIBER in viewer.value.roles
  {
    viewer.Some? && ArrayIncludes(viewer.value.roles, LIFETIME_SUBSCRIBER)
  }

  /** Some single account both lists the viewer as a member and has an active subscription. */
  function IsActiveAccountMember(vid: Option<UserId>, accounts: seq<Account>): (r: bool)
    ensures r <==> exists i :: 0 <= i < |accounts| && ListsMember(accounts[i], vid) && HasActiveSubscription(accounts[i])
  {
    ArraySome(accounts, (a: Account) =>
      ArrayFind(a.members, (m: Member) => Some(m.id) == vid).Some?
      && ArraySome(a.subscriptions, (s: Subscription) => s.status == ACTIVE))
  }

  function IsAccountOwner(vid: Option<UserId>, accounts: seq<Account>): (r: bool)
    ensures r <==> exists i :: 0 <= i < |accounts| && OwnerId(accounts[i]) == vid
  {
    ArraySome(accounts, (a: Account) => OwnerId(a) == vid)
  }

  function IsTeamAccountOwner(vid: Option<UserId>, accounts: seq<Account>): (r: bool)
    ensures r <==> exists i :: 0 <= i < |accounts| && OwnerId(accounts[i]) == vid && accounts[i].capacity > 1
  {
    ArraySome(accounts, (a: Account) => OwnerId(a) == vid && a.capacity > 1)
  }

  /** `isAccountOwner && userAccounts?.find(..)`: the first account, in input
      order, that the viewer owns and that has an active subscription. */
  function SelectedAccount(vid: Option<UserId>, accounts: seq<Account>): (r: Option<Account>)
    ensures r.Some? <==> exists i :: 0 <= i < |accounts| && OwnsActive(accounts[i], vid)
    ensures r.Some? ==> exists i :: 0 <= i < |accounts| && accounts[i] == r.value && OwnsActive(accounts[i], vid)
                                     && forall j :: 0 <= j < i ==> !OwnsActive(accounts[j], vid)
  {
    if !IsAccountOwner(vid, accounts) then None
    else ArrayFind(accounts, (a: Account) =>
      OwnerId(a) == vid && ArrayFind(a.subscriptions, (s: Subscription) => s.status == ACTIVE).Some?)
  }

  /** `account?.subscriptions?.[0]`. */
  function FirstSubscription(account: Option<Account>): Option<Subscription> {
    if account.Some? && |account.value.subscriptions| > 0 then Some(account.value.subscriptions[0]) else None
  }

  /** `account?.subscriptions?.[0]?.current_period_end`: read from index 0,
      whichever subscription made the account active. */
  function GiftExpiration(account: Option<Account>): (r: DateField)
    ensures r == if account.Some? && |account.value.subscriptions| > 0
                 then account.value.subscriptions[0].currentPeriodEnd else Missing
  {
    match FirstSubscription(account)
    case None => Missing
    case Some(s) => s.currentPeriodEnd
  }

  /** date-fns `isPast(new Date(expiration))`: `new Date(undefined)` is an
      invalid date, which is never in the past; `new Date(null)` is the epoch. */
  function IsPast(expiration: DateField, now: Instant): (r: bool)
    ensures r <==> (expiration.At? && expiration.instant < now) || (expiration.Null? && 0 < now)
  {
    match expiration
    case Missing => false
    case Null => 0 < now
    case At(t) => t < now
  }

  function IsGiftMembership(account: Option<Account>, now: Instant): (r: bool)
    ensures r <==> account.Some? && |account.value.subscriptions| > 0
                   && account.value.subscriptions[0].kind == GIFT
                   && account.value.subscriptions[0].status in GIFT_STATUSES
                   && !IsPast(account.value.subscriptions[0].currentPeriodEnd, now)
  {
    match FirstSubscription(account)
    case None => false
    case Some(s) =>
      s.kind == GIFT
      && (s.status == "active" || s.status == "past_due" || s.status == "trialing")
      && !IsPast(GiftExpiration(account), now)
  }

  /** `Boolean(account?.stripe_customer_id)`: the empty string is falsy. */
  function HasStripeAccount(account: Option<Account>): (r: bool)
    ensures r <==> account.Some? && account.value.stripeCustomerId.Some? && account.value.stripeCustomerId.value != ""
  {
    match account
    case None => false
    case Some(a) => a.stripeCustomerId.Some? && |a.stripeCustomerId.value| > 0
  }

  /** `[...].includes(account?.subscriptions?.[0]?.status)`. */
  function IsDisabled(account: Option<Account>): (r: bool)
    ensures r <==> account.Some? && |account.value.subscriptions| > 0
                   && account.value.subscriptions[0].status in DISABLED_STATUSES
  {
    match FirstSubscription(account)
    case None => false
    case Some(s) => ArrayIncludes(DISABLED_STATUSES, s.status)
  }

  /** `userAccounts?.find((account) => account?.owner)?.owner`: the owner of the
      first account that has one, whoever the viewer is. */
  function AccountOwner(accounts: seq<Account>): (r: Option<Owner>)
    ensures r.None? <==> forall i :: 0 <= i < |accounts| ==> accounts[i].owner.None?
    ensures r.Some? ==> exists i :: 0 <= i < |accounts| && accounts[i].owner == r
                                     && forall j :: 0 <= j < i ==> accounts[j].owner.None?
  {
    match ArrayFind(accounts, (a: Account) => a.owner.Some?)
    case None => None
    case Some(a) => a.owner
  }

  // ---------------------------------------------------------------------------
  // The hook

  /** The hook reads `viewer.id` without `?.` in the member and owner callbacks,
      so it fails unless a viewer is present whenever the account list is non-empty. */
  predicate ViewerReadable(viewer: Option<Viewer>, userAccounts: Option<seq<Account>>) {
    userAccounts.Some? && |userAccounts.value| > 0 ==> viewer.Some?
  }

  /** The accounts the callbacks run over: none while the query has no data. */
  function Loaded(userAccounts: Option<seq<Account>>): seq<Account> {
    if userAccounts.Some? then userAccounts.value else []
  }

  /** The id the callbacks compare against. With no viewer the list is empty
      (ViewerReadable) and no callback runs, so the value is never consulted. */
  function ViewerId(viewer: Option<Viewer>): Option<UserId> {
    if viewer.Some? then viewer.value.id else None
  }

  /** `useAccount()` with its two data sources and the clock passed in. */
  function Resolve(viewer: Option<Viewer>, userAccounts: Option<seq<Account>>,
                   status: QueryStatus, now: Instant): (e: Entitlement)
    requires ViewerReadable(viewer, userAccounts)
    ensures e.isTeamAccountOwner ==> e.isAccountOwner
    ensures e.account.Some? ==> e.isAccountOwner
    ensures e.isTeamMember <==> e.isActiveAccountMember && !e.isAccountOwner
    ensures !(e.isGiftMembership && e.isDisabled)
    ensures e.account.None? ==> !e.isGiftMembership && !e.isDisabled && !e.hasStripeAccount && e.giftExpiration.Missing?
    ensures e.accountLoading <==> status == Loading
    ensures var vid, accts := ViewerId(viewer), Loaded(userAccounts);
      && e.account == SelectedAccount(vid, accts)
      && e.isActiveAccountMember == IsActiveAccountMember(vid, accts)
      && e.isAccountOwner == IsAccountOwner(vid, accts)
      && e.isTeamAccountOwner == IsTeamAccountOwner(vid, accts)
      && e.accountOwner == AccountOwner(accts)
    ensures e.giftExpiration == GiftExpiration(e.account)
    ensures e.isGiftMembership == IsGiftMembership(e.account, now)
    ensures e.isDisabled == IsDisabled(e.account)
    ensures e.hasStripeAccount == HasStripeAccount(e.account)
    ensures e.isLifetimeMember == IsLifetimeMember(viewer)
    ensures e.isInstructor <==> viewer.Some? && viewer.value.isInstructor
    ensures e.instructorId == if viewer.Some? then viewer.value.instructorId else None
  {
    var accounts := Loaded(userAccounts);
    var vid := ViewerId(viewer);
    var isActiveAccountMember := IsActiveAccountMember(vid, accounts);
    var isAccountOwner := IsAccountOwner(vid, accounts);
    var account := SelectedAccount(vid, accounts);
    DisabledExcludesGift(account, now);
    Entitlement(
      account := account,
      isActiveAccountMember := isActiveAccountMember,
      isTeamAccountOwner := IsTeamAccountOwner(vid, accounts),
      isAccountOwner := isAccountOwner,
      isGiftMembership := IsGiftMembership(account, now),
      giftExpiration := GiftExpiration(account),
      isTeamMember := isActiveAccountMember && !isAccountOwner,
      hasStripeAccount := HasStripeAccount(account),
      isDisabled := IsDisabled(account),
      isInstructor := viewer.Some? && viewer.value.isInstructor,
      isLifetimeMember := IsLifetimeMember(viewer),
      instructorId := if viewer.Some? then viewer.value.instructorId else None,
      accountLoading := status == Loading,
      accountOwner := AccountOwner(accounts))
  }

  // ---------------------------------------------------------------------------
  // Properties of the snapshot

  /** The gift statuses and the disabling statuses share no element. */
  lemma DisabledExcludesGift(account: Option<Account>, now: Instant)
    ensures !(IsGiftMembership(account, now) && IsDisabled(account))
  {
  }

  /** The selected account is exactly the first owned account with an active
      subscription, whatever follows it in the list. */
  lemma SelectedIsFirstOwnedActive(vid: Option<UserId>, accounts: seq<Account>, i: nat)
    requires i < |accounts| && OwnsActive(accounts[i], vid)
    requires forall j :: 0 <= j < i ==> !OwnsActive(accounts[j], vid)
    ensures SelectedAccount(vid, accounts) == Some(accounts[i])
  {
  }

  /** Accounts not yet loaded give the same snapshot as an empty list, and
      neither grants anything tied to an account, whoever the viewer is. */
  lemma NoAccountsNoEntitlement(viewer: Option<Viewer>, userAccounts: Option<seq<Account>>,
                                status: QueryStatus, now: Instant)
    requires Loaded(userAccounts) == []
    ensures Resolve(viewer, userAccounts, status, now) == Resolve(viewer, None, status, now)
    ensures var e := Resolve(viewer, userAccounts, status, now);
      && e.account.None? && e.accountOwner.None?
      && !e.isActiveAccountMember && !e.isAccountOwner && !e.isTeamAccountOwner && !e.isTeamMember
  {
  }

  /** An active gift that is subscription 0 of the selected account is a
      membership until its period end and not from the instant after it. */
  lemma GiftLapsesAtPeriodEnd(a: Account, now: Instant, end: Instant)
    requires |a.subscriptions| > 0 && a.subscriptions[0] == Subscription(ACTIVE, GIFT, At(end))
    ensures IsGiftMembership(Some(a), now) <==> now <= end
    ensures GiftExpiration(Some(a)) == At(end)
  {
  }

  /** A gift whose period end is `null` reads as ending at the epoch: it is
      reported with a `null` expiration and is no membership at any later instant. */
  lemma NullPeriodEndHasLapsed(a: Account, now: Instant)
    requires |a.subscriptions| > 0 && a.subscriptions[0] == Subscription(ACTIVE, GIFT, Null)
    ensures GiftExpiration(Some(a)) == Null
    ensures IsGiftMembership(Some(a), now) <==> now <= 0
  {
  }

  /** A member match on one account and an active subscription on another do
      not make the viewer an active member. */
  lemma MemberAndActiveMustShareAccount(id: UserId)
    ensures var viewer := Viewer(Some(id), None, [], false, None);
      var lapsed := Account(None, 1, [Member(id)], [Subscription("canceled", "standard", Missing)], None);
      var other := Account(None, 1, [], [Subscription(ACTIVE, "standard", Missing)], None);
      !Resolve(Some(viewer), Some([lapsed, other]), Success, 0).isActiveAccountMember
  {
  }

  /** Owning a one-seat account makes the viewer an owner but not a team owner;
      owning a three-seat one makes the viewer a team owner. */
  lemma SeatsDecideTeamOwnership(id: UserId)
    ensures var viewer := Viewer(Some(id), None, [], false, None);
      var sub := Subscription(ACTIVE, "standard", Missing);
      var solo := Account(Some(Owner(id)), 1, [Member(id)], [sub], None);
      var team := Account(Some(Owner(id)), 3, [Member(id)], [sub], None);
      && Resolve(Some(viewer), Some([solo]), Success, 0).isAccountOwner
      && !Resolve(Some(viewer), Some([solo]), Success, 0).isTeamAccountOwner
      && Resolve(Some(viewer), Some([team]), Success, 0).isTeamAccountOwner
  {
  }

  /** Gift validity and the disabled flag read subscription 0 of the selected
      account even when a later subscription is the active one that selected it:
      a canceled first subscription disables the account and hides a live gift. */
  lemma FirstSubscriptionDecides(id: UserId, now: Instant)
    ensures var viewer := Viewer(Some(id), None, [], false, None);
      var canceled := Subscription("canceled", "standard", Missing);
      var gift := Subscription(ACTIVE, GIFT, At(now + 1));
      var a := Account(Some(Owner(id)), 1, [], [canceled, gift], Some("cus_1"));
      var e := Resolve(Some(viewer), Some([a]), Success, now);
      && e.account == Some(a) && e.hasStripeAccount
      && e.isDisabled && !e.isGiftMembership && e.giftExpiration.Missing?
  {
    var viewer := Viewer(Some(id), None, [], false, None);
    var canceled := Subscription("canceled", "standard", Missing);
    var gift := Subscription(ACTIVE, GIFT, At(now + 1));
    var a := Account(Some(Owner(id)), 1, [], [canceled, gift], Some("cus_1"));
    assert OwnsActive(a, Some(id)) by {
      assert a.subscriptions[1].status == ACTIVE;
    }
    SelectedIsFirstOwnedActive(Some(id), [a], 0);
    assert DISABLED_STATUSES[1] == "canceled";
  }

  /** A viewer without an id "owns" every account without an owner, because
      `undefined === undefined` holds. */
  lemma IdlessViewerOwnsOwnerlessAccount(capacity: int)
    ensures var viewer := Viewer(None, None, [], false, None);
      var a := Account(None, capacity, [], [], None);
      Resolve(Some(viewer), Some([a]), Success, 0).isAccountOwner
  {
  }
}
