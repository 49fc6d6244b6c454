/**
 * Subscription lookup (`get_subscription_details_for_user` in main.py): the
 * first listed subscription whose first item carries the plan's price id and
 * whose `line_user` metadata is the user's id gives the status and customer.
 * The listing of the payment provider is an input.
 */
module Billing {
  import opened Wrappers

  /** `stripe.Subscription.list(limit=100)`: only the first page is scanned. */
  const ListLimit: nat := 100

  /** The fields of a listed subscription that the lookup reads. */
  datatype Subscription = Subscription(
    itemPriceIds: seq<string>,   // items.data[*].price.id
    lineUser: Option<string>,    // metadata.get("line_user")
    status: string,
    customer: string)

  datatype Details = Details(status: string, stripeId: string)

  /**
   * The lookup's result; ListingError stands for an exception leaving the
   * lookup (the provider call failing, or `items.data[0]` of an itemless
   * subscription).
   */
  datatype Lookup = Found(details: Details) | NoSubscription | ListingError

  /** `items.data[0]` raises IndexError on this subscription. */
  predicate Itemless(s: Subscription) {
    s.itemPriceIds == []
  }

  predicate Matches(s: Subscription, userId: string, planId: string) {
    s.itemPriceIds != [] && s.itemPriceIds[0] == planId && s.lineUser == Some(userId)
  }

  /** The scan ends at this subscription, by returning or by raising. */
  predicate Stops(s: Subscription, userId: string, planId: string) {
    Itemless(s) || Matches(s, userId, planId)
  }

  /** Position k is the first position from i at which the scan ends. */
  predicate FirstStop(subs: seq<Subscription>, userId: string, planId: string, i: nat, k: nat)
    requires i <= k < |subs|
  {
    Stops(subs[k], userId, planId) && forall j :: i <= j < k ==> !Stops(subs[j], userId, planId)
  }

  /** The `for` loop from position i on, with its early return. */
  function ScanFrom(subs: seq<Subscription>, userId: string, planId: string, i: nat): (r: Lookup)
    requires i <= |subs|
    decreases |subs| - i
    ensures r == NoSubscription <==> forall k :: i <= k < |subs| ==> !Stops(subs[k], userId, planId)
    ensures r.Found? ==>
      exists k :: i <= k < |subs| && FirstStop(subs, userId, planId, i, k) && Matches(subs[k], userId, planId)
        && r.details == Details(subs[k].status, subs[k].customer)
    ensures r == ListingError ==>
      exists k :: i <= k < |subs| && FirstStop(subs, userId, planId, i, k) && Itemless(subs[k])
  {
    if i == |subs| then NoSubscription
    else if Itemless(subs[i]) then ListingError
    else if Matches(subs[i], userId, planId) then Found(Details(subs[i].status, subs[i].customer))
    else ScanFrom(subs, userId, planId, i + 1)
  }

  /** The first page of the listing. */
  function FirstPage(subs: seq<Subscription>): (page: seq<Subscription>)
    ensures |page| <= ListLimit && |page| <= |subs| && page == subs[..|page|]
    ensures |page| == if |subs| <= ListLimit then |subs| else ListLimit
  {
    if |subs| <= ListLimit then subs else subs[..ListLimit]
  }

  /**
   * `get_subscription_details_for_user`: None as the listing stands for the
   * provider call failing. The result is the first match among the first 100
   * listed subscriptions, no subscription when none of them matches, and an
   * error when an itemless subscription comes before any match.
   */
  function GetSubscriptionDetailsForUser(listing: Option<seq<Subscription>>, userId: string, planId: string): (r: Lookup)
    ensures listing == None ==> r == ListingError
    ensures listing.Some? ==> var page := FirstPage(listing.value);
      && (r == NoSubscription <==> forall k :: 0 <= k < |page| ==> !Stops(page[k], userId, planId))
      && (r.Found? ==>
            exists k :: 0 <= k < |page| && FirstStop(page, userId, planId, 0, k) && Matches(page[k], userId, planId)
              && r.details == Details(page[k].status, page[k].customer))
      && (r == ListingError ==>
            exists k :: 0 <= k < |page| && FirstStop(page, userId, planId, 0, k) && Itemless(page[k]))
  {
    match listing
    case None => ListingError
    case Some(subs) => ScanFrom(FirstPage(subs), userId, planId, 0)
  }

  /** A matching subscription is found whatever follows it in the listing. */
  lemma FirstMatchFound(subs: seq<Subscription>, userId: string, planId: string, k: nat)
    requires k < |subs| && k < ListLimit
    requires Matches(subs[k], userId, planId)
    requires forall j :: 0 <= j < k ==> !Stops(subs[j], userId, planId)
    ensures GetSubscriptionDetailsForUser(Some(subs), userId, planId) ==
      Found(Details(subs[k].status, subs[k].customer))
  {
    var page := FirstPage(subs);
    assert page[k] == subs[k];
    assert forall j :: 0 <= j < k ==> page[j] == subs[j];
    var r := GetSubscriptionDetailsForUser(Some(subs), userId, planId);
    if r.Found? {
      var k' :| 0 <= k' < |page| && FirstStop(page, userId, planId, 0, k') && Matches(page[k'], userId, planId)
        && r.details == Details(page[k'].status, page[k'].customer);
      assert k' == k;
    } else if r == ListingError {
      assert false;
    }
  }

  /** A match listed after the first 100 subscriptions is not seen. */
  lemma BeyondFirstPageNotFound(subs: seq<Subscription>, userId: string, planId: string)
    requires |subs| > ListLimit
    requires forall j :: 0 <= j < ListLimit ==> !Stops(subs[j], userId, planId)
    ensures GetSubscriptionDetailsForUser(Some(subs), userId, planId) == NoSubscription
  {
  }
}
