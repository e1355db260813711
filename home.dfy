/**
 * handleSubmit of the Home page (frontend/src/components/Home.jsx): where a
 * shorten request goes, given connectivity and the apiFetch outcome, and what
 * it does to the offline queue and the page state. Rendering is not modelled.
 */
module Home {
  import opened Wrappers
  import opened Api
  import opened OfflineQueue

  const OFFLINE_INFO := "E\U{0219}ti OFFLINE. Cererea a fost salvat\U{0103} \U{0219}i se va sincroniza automat c\U{00E2}nd revii online."
  const UNREACHABLE_INFO := "Serverul nu e accesibil acum. Am salvat cererea offline \U{0219}i o sincronizez c\U{00E2}nd revii online."
  const SERVER_DOWN_INFO := "Serverul are o problem\U{0103} (500). Am salvat cererea offline \U{0219}i o sincronizez mai t\U{00E2}rziu."
  const SERVER_ERROR := "Eroare server"
  const EXISTING_INFO := "Link existent"

  /** Where one submission ends. */
  datatype Route =
    | Enqueue(info: string)          // saved offline, with an info message
    | ShowError(error: string)       // a client error from the server
    | ShowCode(shortCode: Option<string>, info: string, reactivated: bool)
    | Abort(loading: bool)           // an exception ends the handler early

  /** The decision rule of handleSubmit; `fetched` is consulted only when online. */
  function RouteOf(online: bool, fetched: ApiResult): (r: Route)
    ensures r.Enqueue? <==>
      !online || fetched.NetworkError? || (fetched.Response? && !IsOk(fetched.status) && fetched.status >= 500)
    ensures r.ShowError? <==> online && fetched.Response? && !IsOk(fetched.status) && fetched.status < 500
    ensures r.ShowCode? <==> online && fetched.Response? && IsOk(fetched.status) && fetched.data.Some?
    ensures r.ShowCode? ==> r.shortCode == fetched.data.value.shortCode && r.reactivated == fetched.data.value.reactivated
    ensures r.ShowCode? && !fetched.data.value.existing ==> r.info == ""
    ensures r.ShowCode? && fetched.data.value.existing ==>
              r.info == OrElse(fetched.data.value.msg, EXISTING_INFO) && r.info != ""
    ensures r.Enqueue? ==> r.info != ""
    ensures r.ShowError? ==> r.error != ""
  {
    if !online then Enqueue(OFFLINE_INFO)
    else match fetched
      case NetworkError => Enqueue(UNREACHABLE_INFO)
      case Throws(_) => Abort(true)
      case Response(status, data) =>
        if !IsOk(status) then
          if status >= 500 then Enqueue(SERVER_DOWN_INFO)
          else ShowError(OrElse(ErrorOf(data), SERVER_ERROR))
        else if data.None? then Abort(false)
        else ShowCode(data.value.shortCode,
                      if data.value.existing then OrElse(data.value.msg, EXISTING_INFO) else "",
                      data.value.reactivated)
  }

  /** The page state handleSubmit writes. */
  class HomeForm {
    var shortCode: Option<string>
    var infoMsg: string
    var error: string
    var loading: bool
    /** Calls of bumpDashboard. */
    var dashboardBumps: nat
    /** Navigations to /dashboard scheduled after a reactivation. */
    var navigations: nat

    constructor ()
      ensures shortCode == None && infoMsg == "" && error == "" && !loading
      ensures dashboardBumps == 0 && navigations == 0
    {
      shortCode, infoMsg, error, loading := None, "", "", false;
      dashboardBumps, navigations := 0, 0;
    }

    /**
     * One submission of `longUrl`. `fetched` is what apiFetch returns if it
     * is called; `id` and `now` stand for the queue entry's fresh id and time.
     */
    method HandleSubmit(q: PendingQueue, longUrl: string, online: bool, fetched: ApiResult, id: string, now: string)
      returns (calledApi: bool)
      modifies this, q
      ensures calledApi == online
      ensures var r := RouteOf(online, fetched);
        && q.ReadQueue() == old(q.ReadQueue()) + (if r.Enqueue? then [Entry(id, longUrl, now)] else [])
        && error == (if r.ShowError? then r.error else "")
        && infoMsg == (if r.Enqueue? then r.info else if r.ShowCode? then r.info else "")
        && shortCode == (if r.ShowCode? then r.shortCode else None)
        && loading == (if !online then old(loading) else r.Abort? && r.loading)
        && dashboardBumps == old(dashboardBumps) + (if r.Enqueue? || r.ShowCode? then 1 else 0)
        && navigations == old(navigations) + (if r.ShowCode? && r.reactivated then 1 else 0)
    {
      error, infoMsg, shortCode := "", "", None;
      if !online {
        var _ := q.EnqueueShorten(longUrl, id, now);
        infoMsg := OFFLINE_INFO;
        dashboardBumps := dashboardBumps + 1;
        return false;
      }
      calledApi := true;
      loading := true;
      if fetched.Throws? {
        return;
      }
      loading := false;
      if fetched.NetworkError? {
        var _ := q.EnqueueShorten(longUrl, id, now);
        infoMsg := UNREACHABLE_INFO;
        dashboardBumps := dashboardBumps + 1;
        return;
      }
      if !IsOk(fetched.status) {
        if fetched.status >= 500 {
          var _ := q.EnqueueShorten(longUrl, id, now);
          infoMsg := SERVER_DOWN_INFO;
          dashboardBumps := dashboardBumps + 1;
          return;
        }
        error := OrElse(ErrorOf(fetched.data), SERVER_ERROR);
        return;
      }
      if fetched.data.None? {
        return;  // reading data.shortCode of a null body throws
      }
      var data := fetched.data.value;
      shortCode := data.shortCode;
      if data.existing {
        infoMsg := OrElse(data.msg, EXISTING_INFO);
      }
      dashboardBumps := dashboardBumps + 1;
      if data.reactivated {
        navigations := navigations + 1;
      }
    }
  }
}
