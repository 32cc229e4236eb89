/**
 * The dashboard view-model: the fetch gate evaluated from the host
 * environment, how load results and moderation replies change the state, and
 * which screen is rendered. Network replies are inputs; each handler is one
 * atomic transition.
 */
module Dashboard {
  import opened Wrappers
  import opened Catalog

  /** What the host environment supplies: the operator id and whether the page
      runs embedded in the chat client. */
  datatype Env = Env(userId: Option<string>, isTelegram: bool)

  /** The outcome of one request: a successful reply with its parsed body, or
      any failure (network error, non-2xx status, unparsable body). */
  datatype Response<T> = Ok(body: T) | Failed

  /** Approve and reject replies carry no body the dashboard reads. */
  type Ack = Response<()>

  datatype State = State(apps: seq<App>, stats: Option<Stat>, error: Option<string>, reasonInput: string)

  /** Requests the dashboard sends to the backend. */
  datatype Request = ListApps | LoadStats | ApproveApp(id: string) | RejectApp(id: string, reason: string)

  /** The blocking notice shown after a handler runs. */
  datatype Alert = NoAlert | ApproveDone | ApproveError | ReasonMissing | RejectDone | RejectError

  /** One handler invocation: the new state, the request it sent if any, and
      the notice it raised. */
  datatype Step = Step(state: State, request: Option<Request>, alert: Alert)

  /** The single screen shown when the list fails to load. */
  const ListLoadError: string := "Не удалось загрузить приложения. Попробуйте позже."

  const Initial := State([], None, None, "")

  /** JavaScript truthiness of an optional string. */
  predicate Truthy(s: Option<string>) {
    s.Some? && s.value != ""
  }

  /** `isTelegram && userId && userId !== 'guest'`. */
  predicate ShouldFetch(env: Env) {
    env.isTelegram && Truthy(env.userId) && env.userId.value != "guest"
  }

  /** The requests issued when the component mounts or its environment
      changes: the list and the stats, each under the same gate. */
  function Mount(env: Env): (r: seq<Request>)
    ensures r != [] <==> env.isTelegram && env.userId.Some? && env.userId.value != "" && env.userId.value != "guest"
    ensures !env.isTelegram ==> r == []
    ensures env.userId == Some("guest") ==> r == []
    ensures r != [] ==> ListApps in r && LoadStats in r && |r| == 2
  {
    if ShouldFetch(env) then [ListApps, LoadStats] else []
  }

  /** Result of the list request. */
  function OnAppsLoaded(st: State, resp: Response<seq<App>>): (r: State)
    ensures resp.Ok? ==> r.apps == resp.body && r.error == None
    ensures resp.Failed? ==> r.apps == st.apps && r.error == Some(ListLoadError)
    ensures r.stats == st.stats && r.reasonInput == st.reasonInput
  {
    match resp
    case Ok(data) => st.(apps := data, error := None)
    case Failed => st.(error := Some(ListLoadError))
  }

  /** Result of the stats request; a failure is swallowed. */
  function OnStatsLoaded(st: State, resp: Response<Stat>): (r: State)
    ensures resp.Ok? ==> r.stats == Some(resp.body)
    ensures resp.Failed? ==> r == st
    ensures r.apps == st.apps && r.error == st.error && r.reasonInput == st.reasonInput
  {
    match resp
    case Ok(data) => st.(stats := Some(data))
    case Failed => st
  }

  /** Typing into the rejection-reason field. */
  function TypeReason(st: State, text: string): (r: State)
    ensures r.reasonInput == text
    ensures r.apps == st.apps && r.stats == st.stats && r.error == st.error
  {
    st.(reasonInput := text)
  }

  /** Approve button: always sends the request; the list is patched only after
      a successful reply. */
  function HandleApprove(st: State, id: string, ack: Ack): (r: Step)
    ensures r.request == Some(ApproveApp(id))
    ensures ack.Failed? ==> r.state == st && r.alert == ApproveError
    ensures ack.Ok? ==> r.alert == ApproveDone
    ensures r.state.stats == st.stats && r.state.error == st.error && r.state.reasonInput == st.reasonInput
    ensures |r.state.apps| == |st.apps|
    ensures forall i :: 0 <= i < |st.apps| && (ack.Failed? || st.apps[i].id != id) ==> r.state.apps[i] == st.apps[i]
    ensures ack.Ok? ==> forall i :: 0 <= i < |st.apps| && st.apps[i].id == id ==>
              r.state.apps[i] == App(id, Added, None, st.apps[i].rest)
    ensures AllConsistent(st.apps) ==> AllConsistent(r.state.apps)
  {
    match ack
    case Ok(_) => Step(st.(apps := MarkApproved(st.apps, id)), Some(ApproveApp(id)), ApproveDone)
    case Failed => Step(st, Some(ApproveApp(id)), ApproveError)
  }

  /** Reject button: an empty reason aborts before any request; otherwise the
      reason is sent, and on success the app is rejected with that reason and
      the reason field is cleared. */
  function HandleReject(st: State, id: string, ack: Ack): (r: Step)
    ensures st.reasonInput == "" ==> r == Step(st, None, ReasonMissing)
    ensures st.reasonInput != "" ==> r.request == Some(RejectApp(id, st.reasonInput))
    ensures st.reasonInput != "" && ack.Failed? ==> r.state == st && r.alert == RejectError
    ensures st.reasonInput != "" && ack.Ok? ==> r.state.reasonInput == "" && r.alert == RejectDone
    ensures r.state.stats == st.stats && r.state.error == st.error
    ensures |r.state.apps| == |st.apps|
    ensures forall i :: 0 <= i < |st.apps| && (st.reasonInput == "" || ack.Failed? || st.apps[i].id != id) ==>
              r.state.apps[i] == st.apps[i]
    ensures st.reasonInput != "" && ack.Ok? ==> forall i :: 0 <= i < |st.apps| && st.apps[i].id == id ==>
              r.state.apps[i] == App(id, Rejected, Some(st.reasonInput), st.apps[i].rest)
    ensures AllConsistent(st.apps) ==> AllConsistent(r.state.apps)
  {
    if st.reasonInput == "" then
      Step(st, None, ReasonMissing)
    else
      var reason := st.reasonInput;
      match ack
      case Ok(_) => Step(st.(apps := MarkRejected(st.apps, id, reason), reasonInput := ""), Some(RejectApp(id, reason)), RejectDone)
      case Failed => Step(st, Some(RejectApp(id, reason)), RejectError)
  }

  /** The statistics section: counters once loaded, a loading line before. */
  datatype StatsPanel = Counters(stat: Stat) | LoadingStats

  /** The screen the component renders. */
  datatype View = NotEmbedded | ErrorScreen(message: string) | Ready(pending: seq<App>, panel: StatsPanel)

  function Render(env: Env, st: State): (v: View)
    ensures v.NotEmbedded? <==> !env.isTelegram
    ensures v.ErrorScreen? <==> env.isTelegram && st.error.Some? && st.error.value != ""
    ensures v.ErrorScreen? ==> v.message == st.error.value
    ensures v.Ready? ==> v.pending == Pending(st.apps)
    ensures v.Ready? ==> (v.panel.Counters? <==> st.stats.Some?)
    ensures v.Ready? && st.stats.Some? ==> v.panel == Counters(st.stats.value)
  {
    if !env.isTelegram then NotEmbedded
    else if Truthy(st.error) then ErrorScreen(st.error.value)
    else Ready(Pending(st.apps), if st.stats.Some? then Counters(st.stats.value) else LoadingStats)
  }
}
