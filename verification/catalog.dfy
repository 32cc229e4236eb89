/**
 * The records the moderation dashboard holds in memory: catalog apps with
 * their moderation status, the aggregate catalog counters, and the list
 * transforms the dashboard applies to its copy of the app list.
 */
module Catalog {
  import opened Wrappers

  datatype Kind = Game | MiniApp

  /** Moderation lifecycle of an app. */
  datatype Status = Added | OnModeration | Rejected

  /** Every field of an app other than its id, status and rejection reason.
      The dashboard never changes any of these; they are carried along so that
      "everything else is unchanged" can be stated. */
  datatype Listing = Listing(
    kind: Kind,
    name: string,
    shortDescription: string,
    longDescription: Option<string>,
    category: string,
    additionalCategories: seq<string>,
    icon: string,
    gallery: seq<string>,
    video: Option<string>,
    developerId: string,
    platforms: seq<string>,
    ageRating: string,
    inAppPurchases: bool,
    supportsTON: bool,
    supportsTelegramStars: bool,
    contactInfo: string)

  datatype App = App(id: string, status: Status, rejectionReason: Option<string>, rest: Listing)

  /** Aggregate catalog counters. */
  datatype Stat = Stat(totalApps: int, totalClicks: int, totalStars: int, totalComplaints: int)

  /** The catalog's intended invariant: a rejection reason is present exactly
      when the app is rejected. */
  predicate Consistent(a: App) {
    a.rejectionReason.Some? <==> a.status == Rejected
  }

  predicate AllConsistent(apps: seq<App>) {
    forall i :: 0 <= i < |apps| ==> Consistent(apps[i])
  }

  /** The object spread `{ ...app, status, rejectionReason }`. */
  function Settled(a: App, status: Status, reason: Option<string>): App {
    a.(status := status, rejectionReason := reason)
  }

  /** Replaces status and rejection reason of every app whose id is `id`,
      keeping length, order and all other apps as they are. */
  function Settle(apps: seq<App>, id: string, status: Status, reason: Option<string>): (r: seq<App>)
    ensures |r| == |apps|
    ensures forall i :: 0 <= i < |apps| && apps[i].id == id ==>
              r[i].id == id && r[i].status == status && r[i].rejectionReason == reason
              && r[i].rest == apps[i].rest
    ensures forall i :: 0 <= i < |apps| && apps[i].id != id ==> r[i] == apps[i]
  {
    if |apps| == 0 then []
    else
      var head := if apps[0].id == id then Settled(apps[0], status, reason) else apps[0];
      [head] + Settle(apps[1..], id, status, reason)
  }

  /** Approving: the app becomes `added` and loses any rejection reason. */
  function MarkApproved(apps: seq<App>, id: string): seq<App> {
    Settle(apps, id, Added, None)
  }

  /** Rejecting: the app becomes `rejected` and records the reason. */
  function MarkRejected(apps: seq<App>, id: string, reason: string): seq<App> {
    Settle(apps, id, Rejected, Some(reason))
  }

  /** The apps still awaiting review, in list order. */
  function Pending(apps: seq<App>): (r: seq<App>)
    ensures |r| <= |apps|
    ensures forall a :: a in r <==> a in apps && a.status == OnModeration
  {
    if |apps| == 0 then []
    else if apps[0].status == OnModeration then [apps[0]] + Pending(apps[1..])
    else Pending(apps[1..])
  }

  /** Filtering distributes over concatenation: the pending list keeps the
      relative order of the apps it retains. */
  lemma {:induction false} PendingAppend(xs: seq<App>, ys: seq<App>)
    ensures Pending(xs + ys) == Pending(xs) + Pending(ys)
  {
    if |xs| == 0 {
      assert xs + ys == ys;
    } else {
      assert (xs + ys)[1..] == xs[1..] + ys;
      PendingAppend(xs[1..], ys);
    }
  }

  /** Settling the same id twice with the same values is settling it once. */
  lemma {:induction false} SettleIdempotent(apps: seq<App>, id: string, status: Status, reason: Option<string>)
    ensures Settle(Settle(apps, id, status, reason), id, status, reason) == Settle(apps, id, status, reason)
  {
    if |apps| > 0 {
      var once := Settle(apps, id, status, reason);
      assert once[1..] == Settle(apps[1..], id, status, reason);
      SettleIdempotent(apps[1..], id, status, reason);
    }
  }

  lemma ApproveIdempotent(apps: seq<App>, id: string)
    ensures MarkApproved(MarkApproved(apps, id), id) == MarkApproved(apps, id)
  {
    SettleIdempotent(apps, id, Added, None);
  }

  /** If the new status and reason agree with the invariant, settling keeps
      every app consistent. */
  lemma SettlePreservesConsistency(apps: seq<App>, id: string, status: Status, reason: Option<string>)
    requires AllConsistent(apps)
    requires reason.Some? <==> status == Rejected
    ensures AllConsistent(Settle(apps, id, status, reason))
  {
  }

  /** The list with every app of the given id dropped, in order. */
  function WithoutId(apps: seq<App>, id: string): (r: seq<App>)
    ensures |r| <= |apps|
    ensures forall a :: a in r <==> a in apps && a.id != id
  {
    if |apps| == 0 then []
    else if apps[0].id != id then [apps[0]] + WithoutId(apps[1..], id)
    else WithoutId(apps[1..], id)
  }

  /** Moving an id out of review drops exactly the entries of that id from
      the pending list and keeps every other pending app, in order and with
      its multiplicity. */
  lemma {:induction false} SettleLeavesPending(apps: seq<App>, id: string, status: Status, reason: Option<string>)
    requires status != OnModeration
    ensures Pending(Settle(apps, id, status, reason)) == WithoutId(Pending(apps), id)
  {
    if |apps| > 0 {
      var r := Settle(apps, id, status, reason);
      assert r[1..] == Settle(apps[1..], id, status, reason);
      SettleLeavesPending(apps[1..], id, status, reason);
    }
  }
}
