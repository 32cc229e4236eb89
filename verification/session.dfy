/**
 * Sequences of dashboard events applied one after another, and the
 * properties every state reachable from the initial one keeps.
 */
module Session {
  import opened Wrappers
  import opened Catalog
  import opened Dashboard

  /** Something that happens to a mounted dashboard: a load result arriving,
      the operator typing a reason, or a moderation button and its reply. */
  datatype Event =
    | AppsArrived(apps: Response<seq<App>>)
    | StatsArrived(stats: Response<Stat>)
    | ReasonEdited(text: string)
    | ApproveClicked(id: string, ack: Ack)
    | RejectClicked(id: string, ack: Ack)

  /** One event. Approve and reject clicks are accepted in any state. A load
      result can only arrive for a request that was sent, so a reply for which
      `Mount(env)` issued no request has no effect. */
  function Apply(env: Env, st: State, e: Event): (r: State)
    ensures e.AppsArrived? && ListApps !in Mount(env) ==> r == st
    ensures e.StatsArrived? && LoadStats !in Mount(env) ==> r == st
    ensures e.AppsArrived? && ListApps in Mount(env) && e.apps.Ok? ==> r.apps == e.apps.body && r.error == None
    ensures e.AppsArrived? && ListApps in Mount(env) && e.apps.Failed? ==> r.apps == st.apps && r.error == Some(ListLoadError)
    ensures e.StatsArrived? && LoadStats in Mount(env) && e.stats.Ok? ==> r.stats == Some(e.stats.body)
    ensures e.ReasonEdited? ==> r == st.(reasonInput := e.text)
    ensures e.AppsArrived? ==> r.stats == st.stats && r.reasonInput == st.reasonInput
    ensures e.StatsArrived? ==> r.apps == st.apps && r.reasonInput == st.reasonInput
    ensures e.StatsArrived? && e.stats.Failed? ==> r == st
    ensures e.ApproveClicked? ==> r == HandleApprove(st, e.id, e.ack).state
    ensures e.RejectClicked? ==> r == HandleReject(st, e.id, e.ack).state
    ensures !e.AppsArrived? ==> r.error == st.error
  {
    match e
    case AppsArrived(resp) => if ListApps in Mount(env) then OnAppsLoaded(st, resp) else st
    case StatsArrived(resp) => if LoadStats in Mount(env) then OnStatsLoaded(st, resp) else st
    case ReasonEdited(text) => TypeReason(st, text)
    case ApproveClicked(id, ack) => HandleApprove(st, id, ack).state
    case RejectClicked(id, ack) => HandleReject(st, id, ack).state
  }

  function Run(env: Env, st: State, evs: seq<Event>): State
    decreases |evs|
  {
    if |evs| == 0 then st else Run(env, Apply(env, st, evs[0]), evs[1..])
  }

  /** The only error text the dashboard ever stores is the fixed list-load
      message. */
  predicate ErrorWellFormed(st: State) {
    st.error == None || st.error == Some(ListLoadError)
  }

  lemma {:induction false} RunKeepsErrorWellFormed(env: Env, st: State, evs: seq<Event>)
    requires ErrorWellFormed(st)
    ensures ErrorWellFormed(Run(env, st, evs))
    decreases |evs|
  {
    if |evs| > 0 {
      RunKeepsErrorWellFormed(env, Apply(env, st, evs[0]), evs[1..]);
    }
  }

  /** In every reachable state the error screen is shown exactly when the
      page is embedded and an error is stored, and it shows the fixed message. */
  lemma ReachableErrorScreen(env: Env, evs: seq<Event>)
    ensures var st := Run(env, Initial, evs);
      (Render(env, st).ErrorScreen? <==> env.isTelegram && st.error.Some?)
      && (Render(env, st).ErrorScreen? ==> Render(env, st).message == ListLoadError)
  {
    RunKeepsErrorWellFormed(env, Initial, evs);
  }

  predicate Untouched(st: State) {
    st.apps == [] && st.stats == None && st.error == None
  }

  lemma {:induction false} ClosedGateRun(env: Env, st: State, evs: seq<Event>)
    requires !ShouldFetch(env)
    requires Untouched(st)
    ensures Untouched(Run(env, st, evs))
    decreases |evs|
  {
    if |evs| > 0 {
      ClosedGateRun(env, Apply(env, st, evs[0]), evs[1..]);
    }
  }

  /** With the gate closed nothing is ever loaded: the list stays empty, no
      error appears and the stats stay unloaded, whatever the operator does. */
  lemma ClosedGateShowsNothing(env: Env, evs: seq<Event>)
    requires !ShouldFetch(env)
    ensures Untouched(Run(env, Initial, evs))
    ensures env.isTelegram ==> Render(env, Run(env, Initial, evs)) == Ready([], LoadingStats)
  {
    ClosedGateRun(env, Initial, evs);
  }

  /** Every list the backend delivers during the run is consistent. */
  predicate LoadsConsistent(evs: seq<Event>) {
    forall k :: 0 <= k < |evs| && evs[k].AppsArrived? && evs[k].apps.Ok? ==> AllConsistent(evs[k].apps.body)
  }

  /** The local moderation patches never break "rejection reason present iff
      rejected"; only a list from the backend can bring an inconsistent app. */
  lemma {:induction false} RunPreservesConsistency(env: Env, st: State, evs: seq<Event>)
    requires AllConsistent(st.apps)
    requires LoadsConsistent(evs)
    ensures AllConsistent(Run(env, st, evs).apps)
    decreases |evs|
  {
    if |evs| > 0 {
      assert LoadsConsistent(evs[1..]) by {
        forall k | 0 <= k < |evs[1..]| && evs[1..][k].AppsArrived? && evs[1..][k].apps.Ok?
          ensures AllConsistent(evs[1..][k].apps.body)
        {
          assert evs[1..][k] == evs[k + 1];
        }
      }
      assert evs[0].AppsArrived? && evs[0].apps.Ok? ==> AllConsistent(evs[0].apps.body);
      RunPreservesConsistency(env, Apply(env, st, evs[0]), evs[1..]);
    }
  }

  /** Approving the same app twice leaves the same state as approving it once. */
  lemma ApproveTwiceIsOnce(st: State, id: string)
    ensures var once := HandleApprove(st, id, Ok(())).state;
      HandleApprove(once, id, Ok(())).state == once
  {
    ApproveIdempotent(st.apps, id);
  }

  /** A successful rejection clears the reason, so an immediate second
      rejection of any app is refused before any request is sent. */
  lemma RejectClearsReasonGuard(st: State, id: string, other: string, ack: Ack)
    requires st.reasonInput != ""
    ensures var after := HandleReject(st, id, Ok(())).state;
      HandleReject(after, other, ack) == Step(after, None, ReasonMissing)
  {
  }

  /** After a successful approve or reject the review screen lists exactly
      the previously pending apps with a different id, in their old order. */
  lemma ModeratedAppLeavesReview(env: Env, st: State, id: string, approve: bool)
    requires env.isTelegram && !Truthy(st.error)
    requires approve || st.reasonInput != ""
    ensures var after := if approve then HandleApprove(st, id, Ok(())).state else HandleReject(st, id, Ok(())).state;
      Render(env, after) == Ready(WithoutId(Pending(st.apps), id), Render(env, st).panel)
  {
    if approve {
      SettleLeavesPending(st.apps, id, Added, None);
    } else {
      SettleLeavesPending(st.apps, id, Rejected, Some(st.reasonInput));
    }
  }
}
