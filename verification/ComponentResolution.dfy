/** Resolving a whole status page at once (internal/api/statusprojection.go): batched reads keyed by the active source,
    against resolving each component by itself; and the page summary (internal/domain/statuspage.go). The store's two
    projections are parameters. */
module ComponentResolution {
  import opened Options
  import opened PageIndex

  datatype Status = Operational | Maintenance | Degraded | PartialOutage | MajorOutage | NoData | Undefined(name: string)

  datatype Day = Day(day: string, uptime: real, total: int)

  datatype ServiceDay = ServiceDay(day: string, uptime: real, decidable: real)

  datatype ServiceProjection = ServiceProjection(sli: string, excluded: bool, reason: string, uptime: Option<real>,
                                                 withheld: string, sealedInWindow: bool, daily: seq<ServiceDay>)

  datatype MonitorStatus = Up | Down | Pending | OtherStatus(name: string)

  datatype MonitorProjection = MonitorProjection(project: string, status: MonitorStatus, uptime: Option<real>,
                                                 since: Option<int>, daily: seq<Day>)

  datatype Resolution = Resolution(status: Status, reason: string, uptime: Option<real>, withheld: string,
                                   since: Option<int>, daily: seq<Day>, unavailable: bool, project: string)

  /** The store: a service is found only under the project it belongs to. */
  datatype Store = Store(service: (string, string) -> Option<ServiceProjection>, monitor: string -> Option<MonitorProjection>)

  ghost predicate OneHome(st: Store) {
    forall p, q, s :: st.service(p, s).Some? && st.service(q, s).Some? ==> p == q
  }

  // ---------------------------------------------------------------- one component

  function Blank(status: Status, reason: string, unavailable: bool, project: string): Resolution {
    Resolution(status, reason, None, "", None, [], unavailable, project)
  }

  function PublicStatus(p: ServiceProjection): Status {
    if p.excluded then Maintenance else
    if p.sli == "down" then MajorOutage else
    if p.sli == "degraded" then Degraded else
    if p.sli == "healthy" then Operational else NoData
  }

  function FromMonitorStatus(s: MonitorStatus): Status {
    match s case Down => MajorOutage case Up => Operational case _ => NoData
  }

  /** Go's conversion of a float to an integer: toward zero. */
  function Truncate(x: real): int {
    if x >= 0.0 then x.Floor else -((-x).Floor)
  }

  function Strip(days: seq<ServiceDay>): seq<Day> {
    seq(|days|, i requires 0 <= i < |days| => Day(days[i].day, days[i].uptime, Truncate(days[i].decidable * 10000.0)))
  }

  const NOTHING_MEASURED := "nothing_measured"

  function ResolveService(p: Option<ServiceProjection>, project: string, history: bool): Resolution {
    match p
    case None => Blank(NoData, "service_unreadable", true, project)
    case Some(v) => Resolution(PublicStatus(v), v.reason, v.uptime, v.withheld, None,
                               if history && v.sealedInWindow then Strip(v.daily) else [], false, project)
  }

  function ResolveMonitor(p: Option<MonitorProjection>, project: string, history: bool): Resolution {
    match p
    case None => Blank(NoData, "monitor_deleted", false, project)
    case Some(v) =>
      var status := FromMonitorStatus(v.status);
      var reason := if status == NoData then "monitor_never_confirmed" else "";
      if !history then Blank(status, reason, false, v.project) else
      Resolution(status, reason, v.uptime, if v.uptime.None? then NOTHING_MEASURED else "", v.since, v.daily, false, v.project)
  }

  function ResolveManual(c: Component, status: string -> Status): Resolution {
    if c.manualStatus != "" then Blank(status(c.manualStatus), "", false, c.project)
    else Blank(NoData, "no_manual_status", false, c.project)
  }

  /** Resolving one component by itself, reading only its active binding; an empty binding is read as absent. */
  function ResolveAlone(c: Component, st: Store, status: string -> Status, history: bool): Resolution {
    match c.source
    case FromService => ResolveService(if c.service == "" then None else st.service(c.project, c.service), c.project, history)
    case FromMonitor => ResolveMonitor(if c.monitor == "" then None else st.monitor(c.monitor), c.project, history)
    case Manual => ResolveManual(c, status)
  }

  // ---------------------------------------------------------------- the batched code

  datatype Ref = Ref(project: string, service: string)

  /** The store's batched service read: keyed by service id, matched by the (project, service) pair. */
  function ServiceBatch(st: Store, refs: seq<Ref>): map<string, ServiceProjection> {
    if refs == [] then map[] else
    var r, m := refs[|refs| - 1], ServiceBatch(st, refs[..|refs| - 1]);
    match st.service(r.project, r.service)
    case None => m
    case Some(p) => m[r.service := p]
  }

  function MonitorBatch(st: Store, ids: seq<string>): map<string, MonitorProjection> {
    if ids == [] then map[] else
    var id, m := ids[|ids| - 1], MonitorBatch(st, ids[..|ids| - 1]);
    match st.monitor(id)
    case None => m
    case Some(p) => m[id := p]
  }

  function Find<V>(m: map<string, V>, k: string): Option<V> {
    if k in m then Some(m[k]) else None
  }

  /** Some service component of the page asks for service `s` under the project it lives in. */
  ghost predicate ReadForPage(comps: seq<Component>, st: Store, s: string) {
    exists d <- comps :: d.source == FromService && d.service == s && s != "" && st.service(d.project, s).Some?
  }

  /** What the batch holds for a service: its projection if any component of the page asked for it rightly. */
  ghost predicate BatchedServices(m: map<string, ServiceProjection>, comps: seq<Component>, st: Store) {
    && (forall s :: s in m <==> ReadForPage(comps, st, s))
    && (forall s, p :: s in m && st.service(p, s).Some? ==> m[s] == st.service(p, s).value)
  }

  ghost predicate BatchedMonitors(m: map<string, MonitorProjection>, comps: seq<Component>, st: Store) {
    forall c <- comps :: c.source == FromMonitor ==> Find(m, c.monitor) == (if c.monitor == "" then None else st.monitor(c.monitor))
  }

  /** The component as the batched code resolves it. */
  function ResolveBatched(c: Component, services: map<string, ServiceProjection>, monitors: map<string, MonitorProjection>,
                          status: string -> Status, history: bool): Resolution {
    match c.source
    case FromService => ResolveService(Find(services, c.service), c.project, history)
    case FromMonitor => ResolveMonitor(Find(monitors, c.monitor), c.project, history)
    case Manual => ResolveManual(c, status)
  }

  /** The pairs the page's active service bindings ask for, in page order. */
  function ServiceRefs(comps: seq<Component>): seq<Ref> {
    if comps == [] then [] else
    var c := comps[|comps| - 1];
    ServiceRefs(comps[..|comps| - 1]) + (if c.source == FromService && c.service != "" then [Ref(c.project, c.service)] else [])
  }

  function MonitorIDs(comps: seq<Component>): seq<string> {
    if comps == [] then [] else
    var c := comps[|comps| - 1];
    MonitorIDs(comps[..|comps| - 1]) + (if c.source == FromMonitor && c.monitor != "" then [c.monitor] else [])
  }

  method CollectBatches(comps: seq<Component>) returns (refs: seq<Ref>, ids: seq<string>)
    ensures refs == ServiceRefs(comps) && ids == MonitorIDs(comps)
  {
    refs, ids := [], [];
    for i := 0 to |comps|
      invariant refs == ServiceRefs(comps[..i]) && ids == MonitorIDs(comps[..i])
    {
      assert comps[..i + 1][..i] == comps[..i];
      var c := comps[i];
      match c.source
      case FromService => if c.service != "" { refs := refs + [Ref(c.project, c.service)]; }
      case FromMonitor => if c.monitor != "" { ids := ids + [c.monitor]; }
      case Manual =>
    }
    assert comps[..|comps|] == comps;
  }

  lemma {:induction false} RefsMean(comps: seq<Component>)
    ensures forall r :: r in ServiceRefs(comps) <==> exists c <- comps :: c.source == FromService && c.service != "" && r == Ref(c.project, c.service)
    ensures forall m :: m in MonitorIDs(comps) <==> exists c <- comps :: c.source == FromMonitor && c.monitor != "" && m == c.monitor
  {
    if comps != [] {
      var n := |comps| - 1;
      RefsMean(comps[..n]);
      assert comps == comps[..n] + [comps[n]];
    }
  }

  lemma {:induction false} ServiceBatchMeans(st: Store, refs: seq<Ref>)
    requires OneHome(st)
    ensures forall s :: s in ServiceBatch(st, refs) <==> exists r <- refs :: r.service == s && st.service(r.project, s).Some?
    ensures forall s, p :: s in ServiceBatch(st, refs) && st.service(p, s).Some? ==> ServiceBatch(st, refs)[s] == st.service(p, s).value
  {
    if refs != [] {
      var n := |refs| - 1;
      ServiceBatchMeans(st, refs[..n]);
      assert refs == refs[..n] + [refs[n]];
    }
  }

  lemma {:induction false} MonitorBatchMeans(st: Store, ids: seq<string>)
    ensures forall id :: Find(MonitorBatch(st, ids), id) == if id in ids then st.monitor(id) else None
  {
    if ids != [] {
      var n := |ids| - 1;
      MonitorBatchMeans(st, ids[..n]);
      assert ids == ids[..n] + [ids[n]];
    }
  }

  /** What the code resolves component `i` of a page to: its lookup in the page's two batches. */
  function Resolved(comps: seq<Component>, st: Store, status: string -> Status, history: bool, i: nat): Resolution
    requires i < |comps|
  {
    ResolveBatched(comps[i], ServiceBatch(st, ServiceRefs(comps)), MonitorBatch(st, MonitorIDs(comps)), status, history)
  }

  /** A list of resolutions by id; of rows with one id the last is kept. */
  function ById(comps: seq<Component>, rs: seq<Resolution>): map<string, Resolution>
    requires |rs| == |comps|
  {
    if comps == [] then map[] else
    var n := |comps| - 1;
    ById(comps[..n], rs[..n])[comps[n].id := rs[n]]
  }

  /** Of the rows with its id, `i` is the last: the one whose resolution the page keeps. */
  ghost predicate Kept(comps: seq<Component>, i: nat)
    requires i < |comps|
  {
    forall j :: i < j < |comps| ==> comps[j].id != comps[i].id
  }

  lemma {:induction false} ByIdKeeps(comps: seq<Component>, rs: seq<Resolution>, i: nat)
    requires |rs| == |comps| && i < |comps| && Kept(comps, i)
    ensures comps[i].id in ById(comps, rs) && ById(comps, rs)[comps[i].id] == rs[i]
  {
    var n := |comps| - 1;
    if i < n {
      assert comps[n].id != comps[i].id;
      assert Kept(comps[..n], i);
      ByIdKeeps(comps[..n], rs[..n], i);
    }
  }

  lemma {:induction false} ByIdKeys(comps: seq<Component>, rs: seq<Resolution>)
    requires |rs| == |comps|
    ensures ById(comps, rs).Keys == (set i | 0 <= i < |comps| :: comps[i].id)
  {
    if comps != [] {
      var n := |comps| - 1;
      ByIdKeys(comps[..n], rs[..n]);
      assert ById(comps, rs).Keys == ById(comps[..n], rs[..n]).Keys + {comps[n].id};
      assert (set i | 0 <= i < n :: comps[..n][i].id) == (set i | 0 <= i < n :: comps[i].id);
    }
  }

  /** A page's resolutions, in page order. */
  function ResolvedAll(comps: seq<Component>, st: Store, status: string -> Status, history: bool): seq<Resolution> {
    seq(|comps|, i requires 0 <= i < |comps| => Resolved(comps, st, status, history, i))
  }

  function AloneAll(comps: seq<Component>, st: Store, status: string -> Status, history: bool): seq<Resolution> {
    seq(|comps|, i requires 0 <= i < |comps| => ResolveAlone(comps[i], st, status, history))
  }

  /** As the table's key (service, project) of a service has it: a service is bound under one project, its own
      (internal/store/migrations/00081_status_projection.sql:55-59,107-109). */
  ghost predicate Stored(comps: seq<Component>) {
    forall c <- comps, d <- comps :: c.service != "" && c.service == d.service ==> c.project == d.project
  }

  /** Resolution of the whole page. A failed batch fails the page as a whole; the flags say which read failed. On a stored
      page the result is what resolving every component by itself would give; on any page, exactly for the components that
      are not borrowed. */
  method ResolveComponents(comps: seq<Component>, st: Store, status: string -> Status, history: bool,
                           serviceReadFails: bool, monitorReadFails: bool) returns (out: Option<map<string, Resolution>>)
    requires OneHome(st)
    ensures out.None? <==> (serviceReadFails && ServiceRefs(comps) != []) || (monitorReadFails && MonitorIDs(comps) != [])
    ensures out.Some? ==> out.value.Keys == (set i | 0 <= i < |comps| :: comps[i].id)
    ensures out.Some? ==> out.value == ById(comps, ResolvedAll(comps, st, status, history))
    ensures out.Some? && Stored(comps) ==> out.value == ById(comps, AloneAll(comps, st, status, history))
    ensures out.Some? ==> forall i :: 0 <= i < |comps| && Kept(comps, i) ==>
      comps[i].id in out.value && AloneUnlessBorrowed(out.value[comps[i].id], comps, st, status, history, i)
  {
    hide AloneUnlessBorrowed;
    hide ResolveBatched;
    hide ResolveAlone;
    hide ServiceBatch;
    hide MonitorBatch;
    hide ById;
    hide Stored;
    hide Kept;
    var refs, ids := CollectBatches(comps);
    if |refs| > 0 && serviceReadFails { return None; }
    if |ids| > 0 && monitorReadFails { return None; }
    var m := FillPage(comps, ServiceBatch(st, refs), MonitorBatch(st, ids), status, history);
    ghost var all := ResolvedAll(comps, st, status, history);
    assert all == BatchedAll(comps, ServiceBatch(st, refs), MonitorBatch(st, ids), status, history);
    ByIdKeys(comps, all);
    forall i | 0 <= i < |comps| && Kept(comps, i)
      ensures comps[i].id in m && AloneUnlessBorrowed(m[comps[i].id], comps, st, status, history, i)
    {
      ByIdKeeps(comps, all, i);
      BatchedAgainstAlone(comps, st, status, history, i);
    }
    if Stored(comps) { StoredPageAlone(comps, st, status, history); }
    out := Some(m);
  }

  /** The resolution the page gives component `i` is its own, exactly when it is not borrowed. */
  ghost predicate AloneUnlessBorrowed(r: Resolution, comps: seq<Component>, st: Store, status: string -> Status, history: bool, i: nat)
    requires i < |comps|
  {
    r == ResolveAlone(comps[i], st, status, history) <==> !Borrowed(comps, st, comps[i])
  }

  function BatchedAll(comps: seq<Component>, services: map<string, ServiceProjection>, monitors: map<string, MonitorProjection>,
                      status: string -> Status, history: bool): seq<Resolution> {
    seq(|comps|, i requires 0 <= i < |comps| => ResolveBatched(comps[i], services, monitors, status, history))
  }

  method FillPage(comps: seq<Component>, services: map<string, ServiceProjection>, monitors: map<string, MonitorProjection>,
                  status: string -> Status, history: bool) returns (m: map<string, Resolution>)
    ensures m == ById(comps, BatchedAll(comps, services, monitors, status, history))
  {
    hide ResolveBatched;
    ghost var all := BatchedAll(comps, services, monitors, status, history);
    m := map[];
    for n := 0 to |comps|
      invariant m == ById(comps[..n], all[..n])
    {
      assert comps[..n + 1][..n] == comps[..n] && all[..n + 1][..n] == all[..n];
      m := m[comps[n].id := ResolveBatched(comps[n], services, monitors, status, history)];
    }
    assert comps[..|comps|] == comps && all[..|comps|] == all;
  }

  /** A service component whose own (project, service) pair finds nothing, while another component of the page
      asks for the same service under its right project: the batch is keyed by the service id alone. */
  ghost predicate Borrowed(comps: seq<Component>, st: Store, c: Component) {
    c.source == FromService && c.service != "" && st.service(c.project, c.service).None? && ReadForPage(comps, st, c.service)
  }

  /** On a stored page nothing is borrowed, so every resolution is the component's own. */
  lemma StoredPageAlone(comps: seq<Component>, st: Store, status: string -> Status, history: bool)
    requires OneHome(st) && Stored(comps)
    ensures ResolvedAll(comps, st, status, history) == AloneAll(comps, st, status, history)
  {
    hide ResolveBatched;
    hide ResolveAlone;
    hide ServiceBatch;
    hide MonitorBatch;
    forall i | 0 <= i < |comps|
      ensures Resolved(comps, st, status, history, i) == ResolveAlone(comps[i], st, status, history)
    {
      BatchedAgainstAlone(comps, st, status, history, i);
      StoredNotBorrowed(comps, st, i);
    }
  }

  lemma StoredNotBorrowed(comps: seq<Component>, st: Store, i: nat)
    requires Stored(comps) && i < |comps|
    ensures !Borrowed(comps, st, comps[i])
  {
    assert comps[i] in comps;
  }

  lemma BatchesMean(comps: seq<Component>, st: Store)
    requires OneHome(st)
    ensures BatchedServices(ServiceBatch(st, ServiceRefs(comps)), comps, st)
    ensures BatchedMonitors(MonitorBatch(st, MonitorIDs(comps)), comps, st)
  {
    var refs, ids := ServiceRefs(comps), MonitorIDs(comps);
    RefsMean(comps);
    ServiceBatchMeans(st, refs);
    MonitorBatchMeans(st, ids);
    forall s
      ensures s in ServiceBatch(st, refs) <==> ReadForPage(comps, st, s)
    {
      if d :| d in comps && d.source == FromService && d.service == s && s != "" && st.service(d.project, s).Some? {
        assert Ref(d.project, s) in refs;
      }
    }
  }

  lemma BatchedAgainstAlone(comps: seq<Component>, st: Store, status: string -> Status, history: bool, i: nat)
    requires OneHome(st) && i < |comps|
    ensures AloneUnlessBorrowed(Resolved(comps, st, status, history, i), comps, st, status, history, i)
  {
    BatchesMean(comps, st);
    var c := comps[i];
    if c.source == FromService && c.service != "" && st.service(c.project, c.service).Some? {
      assert ReadForPage(comps, st, c.service);
    }
  }

  /** What a stored page shows of a component. A service: maintenance while excluded, else by its state, else no data; no data and
      unavailable when it cannot be read. A monitor: by whether it is up or down, else no data. A manual one: what was set. */
  lemma StoredPageShows(comps: seq<Component>, st: Store, status: string -> Status, history: bool, i: nat)
    requires OneHome(st) && Stored(comps) && i < |comps|
    ensures var c := comps[i]; var r := Resolved(comps, st, status, history, i);
      match c.source
      case FromService =>
        if c.service == "" || st.service(c.project, c.service).None? then r.status == NoData && r.unavailable else
        var p := st.service(c.project, c.service).value;
        && !r.unavailable && r.reason == p.reason && r.uptime == p.uptime
        && (p.excluded ==> r.status == Maintenance)
        && (!p.excluded ==>
          && (p.sli == "down" ==> r.status == MajorOutage) && (p.sli == "degraded" ==> r.status == Degraded)
          && (p.sli == "healthy" ==> r.status == Operational)
          && (p.sli !in {"down", "degraded", "healthy"} ==> r.status == NoData))
      case FromMonitor =>
        && !r.unavailable
        && (r.status == MajorOutage <==> c.monitor != "" && st.monitor(c.monitor).Some? && st.monitor(c.monitor).value.status == Down)
        && (r.status == Operational <==> c.monitor != "" && st.monitor(c.monitor).Some? && st.monitor(c.monitor).value.status == Up)
        && r.status in {MajorOutage, Operational, NoData}
      case Manual => !r.unavailable && r.status == if c.manualStatus == "" then NoData else status(c.manualStatus)
  {
    hide ResolveBatched;
    hide ServiceBatch;
    hide MonitorBatch;
    StoredPageAlone(comps, st, status, history);
    assert ResolvedAll(comps, st, status, history)[i] == AloneAll(comps, st, status, history)[i];
  }

  /** The rest of what it shows: history only when asked for and, for a service, only when sealed in the window; each day with its
      decidable part in basis points; a reason wherever there is no data. */
  lemma StoredPageHistory(comps: seq<Component>, st: Store, status: string -> Status, history: bool, i: nat)
    requires OneHome(st) && Stored(comps) && i < |comps|
    ensures var c := comps[i]; var r := Resolved(comps, st, status, history, i);
      && (!history ==> r.daily == [])
      && match c.source
        case FromService =>
          r.project == c.project && r.since == None &&
          if c.service == "" || st.service(c.project, c.service).None? then
            r.reason == "service_unreadable" && r.uptime == None && r.daily == [] else
          var p := st.service(c.project, c.service).value;
          && r.withheld == p.withheld
          && |r.daily| == (if history && p.sealedInWindow then |p.daily| else 0)
          && forall d :: 0 <= d < |r.daily| ==>
            r.daily[d] == Day(p.daily[d].day, p.daily[d].uptime, Truncate(p.daily[d].decidable * 10000.0))
        case FromMonitor =>
          if c.monitor == "" || st.monitor(c.monitor).None? then r.reason == "monitor_deleted" && r.project == c.project else
          var p := st.monitor(c.monitor).value;
          && r.project == p.project && (r.reason == "monitor_never_confirmed" <==> r.status == NoData)
          && (history ==> r.uptime == p.uptime && r.since == p.since && r.daily == p.daily)
          && (history ==> (r.withheld == "nothing_measured" <==> p.uptime == None))
          && (!history ==> r.uptime == None && r.since == None && r.withheld == "")
        case Manual => r.project == c.project && r.daily == [] && (r.reason == "no_manual_status" <==> c.manualStatus == "")
  {
    hide ResolveBatched;
    hide ServiceBatch;
    hide MonitorBatch;
    StoredPageAlone(comps, st, status, history);
    assert ResolvedAll(comps, st, status, history)[i] == AloneAll(comps, st, status, history)[i];
  }

  /** Why the table's key matters: service x of project a, bound under a and, by another component, under b. No stored page
      does that; the code would show the second component the projection of the first. */
  lemma BorrowedExample(p: ServiceProjection, status: string -> Status, history: bool)
    ensures var st := Store((project, service) => if project == "a" && service == "x" then Some(p) else None, id => None);
      var comps := [Component("1", FromService, "", "x", "a", ""), Component("2", FromService, "", "x", "b", "")];
      OneHome(st) && !Stored(comps)
      && Resolved(comps, st, status, history, 1) != ResolveAlone(comps[1], st, status, history)
  {
    hide ResolveBatched;
    hide ResolveAlone;
    hide ServiceBatch;
    hide MonitorBatch;
    var st := Store((project, service) => if project == "a" && service == "x" then Some(p) else None, id => None);
    var comps := [Component("1", FromService, "", "x", "a", ""), Component("2", FromService, "", "x", "b", "")];
    assert comps[0] in comps && comps[1] in comps;
    assert Borrowed(comps, st, comps[1]);
    BatchedAgainstAlone(comps, st, status, history, 1);
  }

  /** The same rows up to bindings their sources do not name. */
  ghost predicate SamePage(a: seq<Component>, b: seq<Component>) {
    |a| == |b| && forall i :: 0 <= i < |a| ==> Active(a[i]) == Active(b[i]) && a[i].project == b[i].project
  }

  lemma LookupIgnoresDormant(a: Component, b: Component, services: map<string, ServiceProjection>,
      monitors: map<string, MonitorProjection>, status: string -> Status, history: bool)
    requires Active(a) == Active(b) && a.project == b.project
    ensures ResolveBatched(a, services, monitors, status, history) == ResolveBatched(b, services, monitors, status, history)
  {}

  lemma {:induction false} BatchesIgnoreDormant(a: seq<Component>, b: seq<Component>)
    requires SamePage(a, b)
    ensures ServiceRefs(a) == ServiceRefs(b) && MonitorIDs(a) == MonitorIDs(b)
  {
    if a != [] {
      var n := |a| - 1;
      BatchesIgnoreDormant(a[..n], b[..n]);
      assert Active(a[n]) == Active(b[n]) && a[n].project == b[n].project;
    }
  }

  lemma {:induction false} ByIdIgnoresDormant(a: seq<Component>, b: seq<Component>, rs: seq<Resolution>)
    requires SamePage(a, b) && |rs| == |a|
    ensures ById(a, rs) == ById(b, rs)
  {
    if a != [] {
      var n := |a| - 1;
      ByIdIgnoresDormant(a[..n], b[..n], rs[..n]);
      assert Active(a[n]) == Active(b[n]);
    }
  }

  /** The page's result does not depend on any dormant binding: neither the batches read, nor any component's resolution,
      nor the map returned. */
  lemma ResolutionIgnoresDormant(a: seq<Component>, b: seq<Component>, st: Store, status: string -> Status, history: bool)
    requires SamePage(a, b)
    ensures ServiceRefs(a) == ServiceRefs(b) && MonitorIDs(a) == MonitorIDs(b)
    ensures ResolvedAll(a, st, status, history) == ResolvedAll(b, st, status, history)
    ensures ById(a, ResolvedAll(a, st, status, history)) == ById(b, ResolvedAll(b, st, status, history))
  {
    hide ServiceRefs;
    hide MonitorIDs;
    hide ServiceBatch;
    hide MonitorBatch;
    hide ResolveBatched;
    hide ById;
    hide Active;
    BatchesIgnoreDormant(a, b);
    forall i | 0 <= i < |a|
      ensures Resolved(a, st, status, history, i) == Resolved(b, st, status, history, i)
    {
      LookupIgnoresDormant(a[i], b[i], ServiceBatch(st, ServiceRefs(a)), MonitorBatch(st, MonitorIDs(a)), status, history);
    }
    ByIdIgnoresDormant(a, b, ResolvedAll(a, st, status, history));
  }

  // ---------------------------------------------------------------- the summary

  predicate Measured(s: Status) {
    s.Operational? || s.Maintenance? || s.Degraded? || s.PartialOutage? || s.MajorOutage?
  }

  function Severity(s: Status): nat {
    match s
    case Operational => 0 case Maintenance => 1 case Degraded => 2 case PartialOutage => 3 case MajorOutage => 4 case _ => 5
  }

  datatype SummaryState = SOperational | SImpaired | SNoData | SEmpty

  datatype Summary = Summary(status: Status, unmeasured: nat, state: SummaryState)

  ghost function Unmeasured(ss: seq<Status>): nat {
    if ss == [] then 0 else Unmeasured(ss[..|ss| - 1]) + (if Measured(ss[|ss| - 1]) then 0 else 1)
  }

  /** The headline is the worst measured status; what was not measured is counted and never read as health. */
  method Summarize(ss: seq<Status>) returns (r: Summary)
    ensures r.unmeasured == Unmeasured(ss)
    ensures r.state == SEmpty <==> ss == []
    ensures r.state == SNoData <==> ss != [] && forall s <- ss :: !Measured(s)
    ensures r.state == SOperational <==> (exists s <- ss :: Measured(s)) && forall s <- ss :: Measured(s) ==> s == Operational
    ensures if exists s <- ss :: Measured(s)
            then r.status in ss && Measured(r.status) && forall s <- ss :: Measured(s) ==> Severity(s) <= Severity(r.status)
            else r.status == NoData
  {
    if ss == [] { return Summary(NoData, 0, SEmpty); }
    var worst, measured, unmeasured := Operational, 0, 0;
    for i := 0 to |ss|
      invariant unmeasured == Unmeasured(ss[..i]) && 0 <= measured && Measured(worst)
      invariant measured == 0 ==> worst == Operational
      invariant measured == 0 <==> forall j :: 0 <= j < i ==> !Measured(ss[j])
      invariant measured > 0 ==> worst == Operational || worst in ss
      invariant forall j :: 0 <= j < i && Measured(ss[j]) ==> Severity(ss[j]) <= Severity(worst)
    {
      assert ss[..i + 1][..i] == ss[..i];
      if !Measured(ss[i]) {
        unmeasured := unmeasured + 1;
        continue;
      }
      measured := measured + 1;
      if Severity(ss[i]) > Severity(worst) { worst := ss[i]; }
    }
    assert ss[..|ss|] == ss;
    if measured == 0 {
      r := Summary(NoData, unmeasured, SNoData);
    } else if worst != Operational {
      r := Summary(worst, unmeasured, SImpaired);
    } else {
      r := Summary(Operational, unmeasured, SOperational);
      var j :| 0 <= j < |ss| && Measured(ss[j]);
      assert ss[j] == Operational;
    }
  }
}
