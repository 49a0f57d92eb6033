/** The authorization decision layer of internal/authz/authz.go, the token validation of
    internal/api/handlers_apitokens.go and the principal a token becomes in internal/auth/middleware.go. */
module Authz {
  import opened Options

  /** Actions are strings; `Other` is any string outside the catalogue. */
  datatype Action =
    | GlobalManage | OrgRead | OrgManage | ProjectRead | ProjectManage | ProjectWrite
    | GateEvaluate | GatePolicyWrite | GateOverride | ChangeRecord | Other(name: string)

  datatype Role = OrgAdmin | ProjectAdmin | Editor | Viewer | UnknownRole(name: string)

  function Grants(role: Role): set<Action> {
    match role
    case OrgAdmin => {OrgRead, OrgManage, ProjectRead, ProjectManage, ProjectWrite,
                      GateEvaluate, GatePolicyWrite, GateOverride, ChangeRecord}
    case ProjectAdmin => {ProjectRead, ProjectManage, ProjectWrite,
                          GateEvaluate, GatePolicyWrite, GateOverride, ChangeRecord}
    case Editor => {OrgRead, ProjectRead, ProjectWrite, GateEvaluate, GatePolicyWrite, ChangeRecord}
    case Viewer => {OrgRead, ProjectRead, GateEvaluate}
    case UnknownRole(_) => {}
  }

  /** A membership in an organization or, with a project, in that project only. */
  datatype Membership = Membership(org: string, project: string, role: Role)

  datatype Principal = Principal(globalAdmin: bool, memberships: seq<Membership>, actions: Option<seq<Action>>)

  predicate Allows(p: Principal, a: Action) {
    p.actions.None? || a in p.actions.value
  }

  /** The membership speaks about the target. */
  predicate Applies(m: Membership, org: string, project: string) {
    m.org == org && (m.project == "" || (project != "" && m.project == project))
  }

  /** The rule as documented: the list, then global admin, then some membership that applies and grants. */
  predicate Permitted(p: Principal, a: Action, org: string, project: string) {
    && Allows(p, a)
    && (p.globalAdmin ||
        (a != GlobalManage && org != "" &&
         exists m <- p.memberships :: Applies(m, org, project) && a in Grants(m.role)))
  }

  method Can(p: Principal, a: Action, org: string, project: string) returns (ok: bool)
    ensures ok == Permitted(p, a, org, project)
  {
    if !Allows(p, a) { return false; }
    if p.globalAdmin { return true; }
    if a == GlobalManage || org == "" { return false; }
    for i := 0 to |p.memberships|
      invariant forall j :: 0 <= j < i ==> !(Applies(p.memberships[j], org, project) && a in Grants(p.memberships[j].role))
    {
      var m := p.memberships[i];
      if m.org != org { continue; }
      if m.project != "" {
        if project == "" || m.project != project { continue; }
      }
      if a in Grants(m.role) { return true; }
    }
    return false;
  }

  predicate InOrg(p: Principal, org: string) {
    p.globalAdmin || exists m <- p.memberships :: m.org == org
  }

  predicate VisibleProject(p: Principal, org: string, project: string) {
    Permitted(p.(actions := None), ProjectRead, org, project)
  }

  // ---------------------------------------------------------------- the query scope

  datatype Scope = Scope(allOrgs: bool, orgs: seq<string>, projects: seq<string>)

  /** The memberships that put `a` into the scope, split the way a query needs them. */
  ghost predicate ScopeOf(p: Principal, a: Action, s: Scope) {
    if !Allows(p, a) then s == Scope(false, [], []) else
    if p.globalAdmin then s == Scope(true, [], []) else
    && !s.allOrgs
    && (forall o :: o in s.orgs <==> exists m <- p.memberships :: a in Grants(m.role) && m.project == "" && m.org == o)
    && (forall q :: q in s.projects <==> exists m <- p.memberships :: a in Grants(m.role) && m.project != "" && m.project == q)
  }

  method VisibleScope(p: Principal, a: Action) returns (s: Scope)
    ensures ScopeOf(p, a, s)
  {
    if !Allows(p, a) { return Scope(false, [], []); }
    if p.globalAdmin { return Scope(true, [], []); }
    var orgs, projects := [], [];
    for i := 0 to |p.memberships|
      invariant forall o :: o in orgs <==> exists j :: 0 <= j < i && a in Grants(p.memberships[j].role)
                                                     && p.memberships[j].project == "" && p.memberships[j].org == o
      invariant forall q :: q in projects <==> exists j :: 0 <= j < i && a in Grants(p.memberships[j].role)
                                                         && p.memberships[j].project != "" && p.memberships[j].project == q
    {
      var m := p.memberships[i];
      if a in Grants(m.role) {
        if m.project == "" { orgs := orgs + [m.org]; } else { projects := projects + [m.project]; }
      }
    }
    s := Scope(false, orgs, projects);
  }

  /** The WHERE clause a scope becomes: org_id = ANY(orgs) OR project_id = ANY(projects). */
  predicate Covers(s: Scope, org: string, project: string) {
    s.allOrgs || org in s.orgs || project in s.projects
  }

  /** A granting membership that a query would match and `Can` would not: one for a project of that id in
      another organization, or one whose organization is the empty string. */
  ghost predicate Stray(p: Principal, a: Action, org: string, project: string) {
    exists m <- p.memberships :: a in Grants(m.role) &&
      ((m.project != "" && m.project == project && m.org != org) || (org == "" && Applies(m, org, project)))
  }

  /** Nothing outside the catalogue and never the global action is granted by a role. */
  lemma RolesGrantNoGlobal(role: Role)
    ensures GlobalManage !in Grants(role) && (Grants(role) != {} ==> ProjectRead in Grants(role))
  {}

  /** What the roles are for: each of viewer, editor and organization admin may do what the one before may; a project admin what an
      organization admin may within a project; a viewer changes nothing, only admins manage a project or override the gate, and
      only an organization admin manages the organization. */
  lemma RolesInOrder()
    ensures Grants(Viewer) < Grants(Editor) < Grants(OrgAdmin)
    ensures Grants(ProjectAdmin) == Grants(OrgAdmin) - {OrgRead, OrgManage}
    ensures {ProjectRead, GateEvaluate} <= Grants(Viewer) && OrgRead in Grants(Viewer)
    ensures Grants(Viewer) !! {OrgManage, ProjectManage, ProjectWrite, GatePolicyWrite, GateOverride, ChangeRecord, GlobalManage}
    ensures {ProjectWrite, GatePolicyWrite, ChangeRecord} <= Grants(Editor)
    ensures forall role :: ProjectManage in Grants(role) || GateOverride in Grants(role) ==> role == ProjectAdmin || role == OrgAdmin
    ensures {ProjectManage, GateOverride} <= Grants(ProjectAdmin)
    ensures forall role :: OrgManage in Grants(role) <==> role == OrgAdmin
    ensures forall role, name :: Other(name) !in Grants(role)
  {
    assert OrgManage in Grants(OrgAdmin) && OrgManage !in Grants(Editor);
    assert ProjectWrite in Grants(Editor) && ProjectWrite !in Grants(Viewer);
  }

  /** For one principal and target: what `Can` permits the scope covers; the rest is the work of stray memberships. */
  lemma ScopeAtTarget(p: Principal, a: Action, org: string, project: string, s: Scope)
    requires ScopeOf(p, a, s)
    ensures Permitted(p, a, org, project) ==> Covers(s, org, project)
    ensures (Permitted(p, a, org, project) <==> Covers(s, org, project))
              <==> (Permitted(p, a, org, project) || p.globalAdmin || !Allows(p, a) || !Stray(p, a, org, project))
  {
    if Allows(p, a) && !p.globalAdmin {
      forall m | m in p.memberships
        ensures a in Grants(m.role) ==> a != GlobalManage
      {
        RolesGrantNoGlobal(m.role);
      }
      CoversByMembership(p, a, org, project, s);
    }
  }

  /** Every project id belongs to one organization, the one each membership in it names. */
  ghost predicate ProjectsDetermineOrgs(p: Principal, org: string, project: string) {
    org != "" && forall m <- p.memberships :: m.project != "" && m.project == project ==> m.org == org
  }

  lemma CoversByMembership(p: Principal, a: Action, org: string, project: string, s: Scope)
    requires ScopeOf(p, a, s) && Allows(p, a) && !p.globalAdmin
    ensures Covers(s, org, project) <==> exists m <- p.memberships ::
      a in Grants(m.role) && ((m.project == "" && m.org == org) || (m.project != "" && m.project == project))
  {
    if m :| m in p.memberships && a in Grants(m.role)
            && ((m.project == "" && m.org == org) || (m.project != "" && m.project == project)) {
      assert Covers(s, org, project);
    }
  }

  /** With real tenant data (a non-empty org, projects of one org each) the two always agree. */
  lemma ScopeAgreesOnTenants(p: Principal, a: Action, org: string, project: string, s: Scope)
    requires ScopeOf(p, a, s) && ProjectsDetermineOrgs(p, org, project)
    ensures Permitted(p, a, org, project) <==> Covers(s, org, project)
  {
    ScopeAtTarget(p, a, org, project, s);
    assert !Stray(p, a, org, project);
  }

  /** The projects there are, each with its organization; a project may be listed under several. */
  type Tenancy = t: set<(string, string)> | forall x <- t :: x.0 != "" && x.1 != "" witness {}

  /** A project id belongs to one organization. */
  ghost predicate Functional(t: Tenancy) {
    forall x, y :: x in t && y in t && x.1 == y.1 ==> x.0 == y.0
  }

  /** Memberships name an organization, and a project only where it is listed. */
  ghost predicate InTenancy(p: Principal, t: Tenancy) {
    forall m <- p.memberships :: m.org != "" && (m.project != "" ==> (m.org, m.project) in t)
  }

  /** An organization, or one of its listed projects. */
  predicate Target(t: Tenancy, org: string, project: string) {
    org != "" && (project == "" || (org, project) in t)
  }

  /** Whoever asks to do whatever: `Can` permits a target exactly when the query scope covers it. */
  ghost predicate Mirrors(t: Tenancy) {
    forall p, a, s, org, project :: InTenancy(p, t) && ScopeOf(p, a, s) && Target(t, org, project) ==>
      (Permitted(p, a, org, project) <==> Covers(s, org, project))
  }

  /** The query scope mirrors `Can` exactly when a project id determines its organization. */
  lemma ScopeMirrorsCan(t: Tenancy)
    ensures Mirrors(t) <==> Functional(t)
  {
    hide Permitted;
    hide Covers;
    hide ScopeOf;
    if Functional(t) {
      forall p, a, s, org, project | InTenancy(p, t) && ScopeOf(p, a, s) && Target(t, org, project)
        ensures Permitted(p, a, org, project) <==> Covers(s, org, project)
      {
        TenantsDetermineOrgs(t, p, org, project);
        ScopeAgreesOnTenants(p, a, org, project, s);
      }
    } else {
      var x, y :| x in t && y in t && x.1 == y.1 && x.0 != y.0;
      ScopeCracks(x.0, y.0, x.1);
      var p := Principal(false, [Membership(x.0, x.1, Viewer)], None);
      assert InTenancy(p, t) && Target(t, y.0, y.1);
    }
  }

  lemma TenantsDetermineOrgs(t: Tenancy, p: Principal, org: string, project: string)
    requires Functional(t) && InTenancy(p, t) && Target(t, org, project)
    ensures ProjectsDetermineOrgs(p, org, project)
  {
    forall m | m in p.memberships && m.project != "" && m.project == project
      ensures m.org == org
    {
      assert (m.org, m.project) in t && (org, project) in t;
    }
  }

  /** A project listed under two organizations: a viewer of it in one has it in scope when it is asked about in the other,
      where `Can` refuses. */
  lemma ScopeCracks(org: string, other: string, project: string)
    requires org != other && project != ""
    ensures var p := Principal(false, [Membership(org, project, Viewer)], None);
      !Permitted(p, ProjectRead, other, project) && Covers(Scope(false, [], [project]), other, project)
      && ScopeOf(p, ProjectRead, Scope(false, [], [project]))
  {
    var p := Principal(false, [Membership(org, project, Viewer)], None);
    var m := p.memberships[0];
    assert m in p.memberships && ProjectRead in Grants(m.role);
  }

  /** The 404 check never hides an allowed call: what may be done to a project can be seen. */
  lemma CanImpliesVisible(p: Principal, a: Action, org: string, project: string)
    requires Permitted(p, a, org, project)
    ensures VisibleProject(p, org, project) && InOrg(p, org)
  {
    if !p.globalAdmin {
      var m :| m in p.memberships && Applies(m, org, project) && a in Grants(m.role);
      RolesGrantNoGlobal(m.role);
    }
  }

  datatype Access = NotFound | Forbidden | Granted | ServerError

  /** What the store makes of a project id: the organization it belongs to. */
  datatype Lookup = Found(org: string) | Missing | Failed

  /** The gate in front of every project route (internal/api/handlers_monitors.go:16-36): a call is let through exactly when
      the project is there and `Can` allows it; it is hidden exactly when the project is missing or no membership reaches it. */
  method ProjectAccess(p: Principal, a: Action, found: Lookup, project: string) returns (r: Access)
    ensures r == Granted <==> found.Found? && Permitted(p, a, found.org, project)
    ensures r == NotFound <==> found.Missing? || (found.Found? && !VisibleProject(p, found.org, project))
    ensures r == ServerError <==> found.Failed?
  {
    if found.Missing? { return NotFound; }
    if found.Failed? { return ServerError; }
    var visible := Can(p.(actions := None), ProjectRead, found.org, project);
    if !visible {
      if Permitted(p, a, found.org, project) { CanImpliesVisible(p, a, found.org, project); }
      return NotFound;
    }
    var ok := Can(p, a, found.org, project);
    r := if ok then Granted else Forbidden;
  }

  // ---------------------------------------------------------------- tokens

  datatype Token = Token(org: string, project: string, role: Role, actions: Option<seq<Action>>)

  /** The principal the auth layer builds from a token row. */
  function PrincipalFromToken(t: Token): Principal {
    Principal(false, [Membership(t.org, t.project, t.role)], t.actions)
  }

  /** Why a token's list is refused. */
  datatype Refusal = ActionUnknown(a: Action) | ActionNotGranted(a: Action)

  /** What validation asks of one entry: a catalogue action that the token's role grants at its scope. */
  predicate Acceptable(t: Token, a: Action) {
    !a.Other? && Permitted(PrincipalFromToken(t).(actions := None), a, t.org, t.project)
  }

  function RefusalFor(a: Action): Refusal {
    if a.Other? then ActionUnknown(a) else ActionNotGranted(a)
  }

  method ValidateTokenActions(t: Token) returns (r: Option<Refusal>)
    ensures r.None? <==> Validated(t)
    ensures r.Some? ==> t.actions.Some? && exists i ::
      && 0 <= i < |t.actions.value| && !Acceptable(t, t.actions.value[i]) && r.value == RefusalFor(t.actions.value[i])
      && forall j :: 0 <= j < i ==> Acceptable(t, t.actions.value[j])
  {
    if t.actions.None? { return None; }
    var shadow := PrincipalFromToken(t).(actions := None);
    for i := 0 to |t.actions.value|
      invariant forall j :: 0 <= j < i ==> Acceptable(t, t.actions.value[j])
    {
      var a := t.actions.value[i];
      if a.Other? { return Some(ActionUnknown(a)); }
      var granted := Can(shadow, a, t.org, t.project);
      if !granted { return Some(ActionNotGranted(a)); }
    }
    return None;
  }

  ghost predicate Validated(t: Token) {
    t.actions.Some? ==> forall i :: 0 <= i < |t.actions.value| ==> Acceptable(t, t.actions.value[i])
  }

  /** A validated token with a list can do exactly the listed actions, and exactly where its scope reaches. */
  lemma ListedActionsExactly(t: Token, a: Action, org: string, project: string)
    requires Validated(t) && t.actions.Some? && t.org != ""
    ensures Permitted(PrincipalFromToken(t), a, org, project) <==>
      (a in t.actions.value && org == t.org && (t.project == "" || project == t.project))
  {
    var p := PrincipalFromToken(t);
    var m := p.memberships[0];
    assert m in p.memberships && forall n <- p.memberships :: n == m;
    if a in t.actions.value {
      assert Acceptable(t, a);
      assert Permitted(p.(actions := None), a, t.org, t.project);
      assert a in Grants(t.role);
    }
  }

  // ---------------------------------------------------------------- the rule, taken apart

  /** A global admin without a list may do everything; nobody else may do the global action, nor anything outside an organization. */
  lemma GlobalAdminAlone(p: Principal, a: Action, org: string, project: string)
    ensures p.globalAdmin && p.actions.None? ==> Permitted(p, a, org, project)
    ensures !p.globalAdmin && (a == GlobalManage || org == "") ==> !Permitted(p, a, org, project)
  {}

  /** A list only takes away: with one, exactly the listed actions among those permitted without. */
  lemma ListIntersects(p: Principal, list: seq<Action>, a: Action, org: string, project: string)
    ensures Permitted(p.(actions := Some(list)), a, org, project) <==>
      a in list && Permitted(p.(actions := None), a, org, project)
  {}

  /** Memberships add up: what either part of them permits, and no more. */
  lemma MembershipsAddUp(p: Principal, more: seq<Membership>, a: Action, org: string, project: string)
    requires !p.globalAdmin
    ensures Permitted(p.(memberships := p.memberships + more), a, org, project) <==>
      Permitted(p, a, org, project) || Permitted(p.(memberships := more), a, org, project)
  {}

  /** One membership without a list: what its role grants, in its organization, and only in its project if it names one. */
  lemma OneMembership(m: Membership, a: Action, org: string, project: string)
    ensures Permitted(Principal(false, [m], None), a, org, project) <==>
      org != "" && m.org == org && (m.project == "" || m.project == project) && a in Grants(m.role)
  {
    RolesGrantNoGlobal(m.role);
    assert m in [m];
  }

  /** And none permits nothing. */
  lemma NoMembership(a: Action, org: string, project: string)
    ensures !Permitted(Principal(false, [], None), a, org, project)
  {}
}
