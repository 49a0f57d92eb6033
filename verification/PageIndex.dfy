/** The affected-component index of a status page (internal/api/handlers_statuspage.go): built once per page, it must
    answer what a plain scan of the components would. */
module PageIndex {

  datatype Source = FromMonitor | FromService | Manual

  /** A component. Only the binding its source names is active; the other one is dormant. */
  datatype Component = Component(id: string, source: Source, monitor: string, service: string, project: string, manualStatus: string)

  datatype Incident = Incident(service: string, monitor: string)

  /** The anchor a component hangs on, or none. */
  function Anchor(c: Component): string {
    match c.source case FromMonitor => c.monitor case FromService => c.service case Manual => ""
  }

  predicate Matches(c: Component, source: Source, anchor: string) {
    c.source == source && Anchor(c) == anchor && anchor != "" && c.id != ""
  }

  /** The plain scan: ids of matching components in page order, each once. */
  function Scan(comps: seq<Component>, source: Source, anchor: string): seq<string> {
    if comps == [] then [] else
    var c, before := comps[|comps| - 1], Scan(comps[..|comps| - 1], source, anchor);
    if Matches(c, source, anchor) && c.id !in before then before + [c.id] else before
  }

  datatype Index = Index(byMonitor: map<string, seq<string>>, byService: map<string, seq<string>>)

  function Get(m: map<string, seq<string>>, k: string): seq<string> {
    if k in m then m[k] else []
  }

  function Seen(m: map<string, set<string>>, k: string): set<string> {
    if k in m then m[k] else {}
  }

  /** One of the two maps agrees with the scan, and its seen-sets with the map. */
  ghost predicate Agrees(values: map<string, seq<string>>, seen: map<string, set<string>>, comps: seq<Component>, source: Source) {
    forall a :: Get(values, a) == Scan(comps, source, a) && Seen(seen, a) == (set x <- Scan(comps, source, a))
  }

  method AppendUnique(values: map<string, seq<string>>, seen: map<string, set<string>>, anchor: string, id: string,
                      ghost comps: seq<Component>, ghost c: Component)
    returns (values': map<string, seq<string>>, seen': map<string, set<string>>)
    requires c.source != Manual && Anchor(c) == anchor && c.id == id && Agrees(values, seen, comps, c.source)
    ensures Agrees(values', seen', comps + [c], c.source)
  {
    values', seen' := values, seen;
    ghost var all := comps + [c];
    assert all[..|comps|] == comps;
    if anchor == "" || id == "" { return; }
    if anchor !in seen' { seen' := seen'[anchor := {}]; }
    if id in seen'[anchor] {
      assert id in Scan(comps, c.source, anchor);
      return;
    }
    seen' := seen'[anchor := seen'[anchor] + {id}];
    values' := values'[anchor := Get(values', anchor) + [id]];
    forall a
      ensures Get(values', a) == Scan(all, c.source, a) && Seen(seen', a) == (set x <- Scan(all, c.source, a))
    {
      assert Get(values, a) == Scan(comps, c.source, a) && Seen(seen, a) == (set x <- Scan(comps, c.source, a));
      if a == anchor {
        assert Scan(all, c.source, a) == Scan(comps, c.source, a) + [id];
      }
    }
  }

  lemma OtherSourceUnmoved(values: map<string, seq<string>>, seen: map<string, set<string>>, comps: seq<Component>, c: Component, source: Source)
    requires c.source != source && Agrees(values, seen, comps, source)
    ensures Agrees(values, seen, comps + [c], source)
  {
    assert (comps + [c])[..|comps|] == comps;
    forall a
      ensures Get(values, a) == Scan(comps + [c], source, a) && Seen(seen, a) == (set x <- Scan(comps + [c], source, a))
    {
      assert Get(values, a) == Scan(comps, source, a);
      assert Seen(seen, a) == (set x <- Scan(comps, source, a));
    }
  }

  method NewAffectedComponentIndex(comps: seq<Component>) returns (index: Index)
    ensures forall a :: Get(index.byMonitor, a) == Scan(comps, FromMonitor, a)
    ensures forall a :: Get(index.byService, a) == Scan(comps, FromService, a)
  {
    var byMonitor: map<string, seq<string>>, byService: map<string, seq<string>> := map[], map[];
    var seenMonitor: map<string, set<string>>, seenService: map<string, set<string>> := map[], map[];
    for i := 0 to |comps|
      invariant Agrees(byMonitor, seenMonitor, comps[..i], FromMonitor)
      invariant Agrees(byService, seenService, comps[..i], FromService)
    {
      hide Agrees;
      var c := comps[i];
      assert comps[..i + 1] == comps[..i] + [c];
      match c.source
      case FromMonitor =>
        OtherSourceUnmoved(byService, seenService, comps[..i], c, FromService);
        byMonitor, seenMonitor := AppendUnique(byMonitor, seenMonitor, c.monitor, c.id, comps[..i], c);
      case FromService =>
        OtherSourceUnmoved(byMonitor, seenMonitor, comps[..i], c, FromMonitor);
        byService, seenService := AppendUnique(byService, seenService, c.service, c.id, comps[..i], c);
      case Manual =>
        OtherSourceUnmoved(byMonitor, seenMonitor, comps[..i], c, FromMonitor);
        OtherSourceUnmoved(byService, seenService, comps[..i], c, FromService);
    }
    assert comps[..|comps|] == comps;
    index := Index(byMonitor, byService);
  }

  /** Service wins if an incident carries both anchors; one with neither affects nothing. */
  function AffectedScan(comps: seq<Component>, incident: Incident): seq<string> {
    if incident.service != "" then Scan(comps, FromService, incident.service) else
    if incident.monitor != "" then Scan(comps, FromMonitor, incident.monitor) else []
  }

  /** The index lookup is the scan. */
  method AffectedComponentIDs(index: Index, incident: Incident, ghost comps: seq<Component>) returns (ids: seq<string>)
    requires forall a :: Get(index.byMonitor, a) == Scan(comps, FromMonitor, a)
    requires forall a :: Get(index.byService, a) == Scan(comps, FromService, a)
    ensures ids == AffectedScan(comps, incident)
  {
    if incident.service != "" {
      ids := Get(index.byService, incident.service);
    } else if incident.monitor != "" {
      ids := Get(index.byMonitor, incident.monitor);
    } else {
      ids := [];
    }
  }

  // ---------------------------------------------------------------- what the scan is

  /** Component `i` is the first of the page to match under its id. */
  ghost predicate FirstMatch(comps: seq<Component>, source: Source, anchor: string, i: nat)
    requires i < |comps|
  {
    Matches(comps[i], source, anchor) && forall j :: 0 <= j < i && Matches(comps[j], source, anchor) ==> comps[j].id != comps[i].id
  }

  /** The first matches up to position `n`, in page order. */
  ghost function FirstMatches(comps: seq<Component>, source: Source, anchor: string, n: nat): seq<nat>
    requires n <= |comps|
  {
    if n == 0 then [] else
    FirstMatches(comps, source, anchor, n - 1) + (if FirstMatch(comps, source, anchor, n - 1) then [n - 1] else [])
  }

  lemma {:induction false} ScanMembers(comps: seq<Component>, source: Source, anchor: string)
    ensures forall x :: x in Scan(comps, source, anchor) <==> exists c <- comps :: Matches(c, source, anchor) && c.id == x
  {
    if comps != [] {
      var n := |comps| - 1;
      ScanMembers(comps[..n], source, anchor);
      assert comps == comps[..n] + [comps[n]];
    }
  }

  /** The scan lists the ids of the first matches, so: every matching component, each id once, in page order. */
  lemma {:induction false} ScanIsFirstMatches(comps: seq<Component>, source: Source, anchor: string)
    ensures var firsts := FirstMatches(comps, source, anchor, |comps|);
      && |Scan(comps, source, anchor)| == |firsts|
      && forall i :: 0 <= i < |firsts| ==> firsts[i] < |comps| && Scan(comps, source, anchor)[i] == comps[firsts[i]].id
  {
    if comps != [] {
      var n := |comps| - 1;
      ScanIsFirstMatches(comps[..n], source, anchor);
      PrefixMatches(comps, source, anchor, n);
      ScanMembers(comps[..n], source, anchor);
      var c := comps[n];
      if Matches(c, source, anchor) {
        if c.id in Scan(comps[..n], source, anchor) {
          var d :| d in comps[..n] && Matches(d, source, anchor) && d.id == c.id;
          var j :| 0 <= j < n && comps[..n][j] == d;
          assert comps[j] == d;
        } else {
          forall j | 0 <= j < n && Matches(comps[j], source, anchor)
            ensures comps[j].id != c.id
          {
            assert comps[..n][j] in comps[..n];
          }
        }
      }
    }
  }

  lemma {:induction false} PrefixMatches(comps: seq<Component>, source: Source, anchor: string, n: nat)
    requires n < |comps|
    ensures FirstMatches(comps, source, anchor, n) == FirstMatches(comps[..|comps| - 1], source, anchor, n)
  {
    if n > 0 { PrefixMatches(comps, source, anchor, n - 1); }
  }

  /** A component with its dormant binding erased. */
  function Active(c: Component): Component {
    match c.source
    case FromMonitor => c.(service := "", manualStatus := "", project := "")
    case FromService => c.(monitor := "", manualStatus := "", project := "")
    case Manual => c.(monitor := "", service := "", project := "")
  }

  /** Pages that differ only in dormant bindings affect the same components. */
  lemma {:induction false} DormantBindingsIgnored(a: seq<Component>, b: seq<Component>, source: Source, anchor: string)
    requires |a| == |b| && forall i :: 0 <= i < |a| ==> Active(a[i]) == Active(b[i])
    ensures Scan(a, source, anchor) == Scan(b, source, anchor)
  {
    if a != [] {
      var n := |a| - 1;
      DormantBindingsIgnored(a[..n], b[..n], source, anchor);
      assert Active(a[n]) == Active(b[n]);
    }
  }
}
