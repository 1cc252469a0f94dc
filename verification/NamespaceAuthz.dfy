/** Route authorization over the grant table: the middleware admits a request and leaves a
    list of allowed namespaces in the request's context, from which handlers later filter
    what they return. The pointwise check that handlers may also call is the reference. */
module NamespaceAuthz {
  import opened Wrappers
  import opened Text

  datatype Grant = Grant(user: nat, cluster: nat, namespace: string, level: string)

  /** The grant table, and the database's answer to the query for a caller's namespaces, in
      whatever order it comes. */
  datatype Grants = Grants(rows: seq<Grant>, pluck: (nat, nat, string) -> seq<string>)

  datatype Permission = Permission(resource: string, actions: seq<string>)

  /** `permissions` is None when the role's text does not parse. */
  datatype Role = Role(isSystem: bool, name: string, permissions: Option<seq<Permission>>)

  datatype Scope = Platform | Cluster | Namespace | HandlerLevel | NamespaceList | Unknown

  datatype Policy = Policy(resource: string, action: string, scope: Scope, authenticatedOnly: bool, allowFiltered: bool)

  /** The parts of a request that are looked at; `cluster` is None if the id does not parse. */
  datatype Request = Request(cluster: Option<nat>, nsParam: string, nsQuery: string, nsShort: string)

  /** The context keys the authorizer sets. */
  datatype Keys = Keys(cluster: Option<nat>, namespace: Option<string>, allowed: Option<seq<string>>)

  datatype Outcome = Allow | Deny(reason: string)

  // ---------- levels, grants and permissions ----------

  function RequiredLevel(action: string): string {
    if action == "view" then "read"
    else if action == "create" || action == "edit" || action == "delete" || action == "execute" || action == "exec" then "write"
    else if action == "admin" || action == "*" then "admin"
    else ""
  }

  function AcceptedLevels(required: string): seq<string> {
    if required == "read" then ["read", "write", "admin"]
    else if required == "write" then ["write", "admin"]
    else if required == "admin" then ["admin"]
    else []
  }

  predicate Counts(row: Grant, user: nat, cluster: nat, level: string) {
    row.user == user && row.cluster == cluster && row.level in AcceptedLevels(level)
  }

  predicate Authorize(g: Grants, user: nat, cluster: nat, namespace: string, level: string) {
    exists i :: 0 <= i < |g.rows| && Counts(g.rows[i], user, cluster, level)
                && (g.rows[i].namespace == "*" || g.rows[i].namespace == namespace)
  }

  ghost predicate Granted(g: Grants, user: nat, cluster: nat, namespace: string, level: string) {
    exists i :: 0 <= i < |g.rows| && Counts(g.rows[i], user, cluster, level) && g.rows[i].namespace == namespace
  }

  /** The query returns the namespaces of exactly the rows that count. */
  ghost predicate Resolves(g: Grants) {
    forall user, cluster, level, ns ::
      ns in g.pluck(user, cluster, level) <==> Granted(g, user, cluster, ns, level)
  }

  predicate HasPermission(permissions: seq<Permission>, resource: string, action: string) {
    exists i, j :: 0 <= i < |permissions| && 0 <= j < |permissions[i].actions|
                   && (permissions[i].resource == "*" || permissions[i].resource == resource)
                   && (permissions[i].actions[j] == "*" || permissions[i].actions[j] == action)
  }

  predicate Bypass(role: Role) {
    role.isSystem || role.name == "admin"
  }

  function FirstNonEmpty(values: seq<string>): string {
    if values == [] then ""
    else if TrimSpace(values[0]) != "" then TrimSpace(values[0])
    else FirstNonEmpty(values[1..])
  }

  function Explicit(request: Request): string {
    FirstNonEmpty([request.nsParam, request.nsQuery, request.nsShort])
  }

  // ---------- the pointwise check ----------

  function Check(g: Grants, user: nat, role: Option<Role>, resource: string, action: string, cluster: nat, namespace: string): Outcome {
    if role == None then Deny("role not found")
    else if Bypass(role.value) then Allow
    else if role.value.permissions == None then Deny("invalid permissions")
    else if !HasPermission(role.value.permissions.value, resource, action) then Deny("insufficient permissions")
    else if cluster == 0 then Allow
    else if Authorize(g, user, cluster, if namespace == "" then "*" else namespace, RequiredLevel(action)) then Allow
    else Deny("cluster access denied")
  }

  // ---------- the check in the terms of the tables ----------

  /** How much a level allows: each level includes those below it. */
  function Strength(level: string): nat {
    if level == "read" then 1 else if level == "write" then 2 else if level == "admin" then 3 else 0
  }

  lemma LevelsByStrength(required: string, level: string)
    ensures level in AcceptedLevels(required) <==> 1 <= Strength(required) <= Strength(level)
  {
  }

  /** Viewing needs a grant to read, every change a grant to write, administration one of its own. */
  lemma ActionStrength(action: string)
    ensures Strength(RequiredLevel(action))
         == if action == "view" then 1
            else if action in {"create", "edit", "delete", "execute", "exec"} then 2
            else if action in {"admin", "*"} then 3 else 0
  {
  }

  /** A row of the grant table covers a namespace at a strength. */
  predicate Covers(row: Grant, user: nat, cluster: nat, ns: string, strength: nat) {
    row.user == user && row.cluster == cluster && (row.namespace == "*" || row.namespace == ns) && 1 <= strength <= Strength(row.level)
  }

  predicate Covered(g: Grants, user: nat, cluster: nat, ns: string, strength: nat) {
    exists row :: row in g.rows && Covers(row, user, cluster, ns, strength)
  }

  lemma AuthorizeIff(g: Grants, user: nat, cluster: nat, ns: string, level: string)
    ensures Authorize(g, user, cluster, ns, level) <==> Covered(g, user, cluster, ns, Strength(level))
  {
    if i :| 0 <= i < |g.rows| && Counts(g.rows[i], user, cluster, level)
            && (g.rows[i].namespace == "*" || g.rows[i].namespace == ns) {
      LevelsByStrength(level, g.rows[i].level);
      assert Covers(g.rows[i], user, cluster, ns, Strength(level));
    }
    if row :| row in g.rows && Covers(row, user, cluster, ns, Strength(level)) {
      LevelsByStrength(level, row.level);
      assert Counts(row, user, cluster, level);
    }
  }

  /** The pointwise check: administrators pass; others need the resource and the action among
      their role's permissions, and inside a cluster a grant that covers the namespace. */
  lemma CheckIff(g: Grants, user: nat, role: Option<Role>, resource: string, action: string, cluster: nat, ns: string)
    ensures Check(g, user, role, resource, action, cluster, ns) == Allow
            <==> && role.Some?
                 && (role.value.isSystem || role.value.name == "admin"
                     || (&& role.value.permissions.Some?
                         && (exists p :: p in role.value.permissions.value && (p.resource == "*" || p.resource == resource)
                                         && ("*" in p.actions || action in p.actions))
                         && (cluster == 0
                             || Covered(g, user, cluster, if ns == "" then "*" else ns, Strength(RequiredLevel(action))))))
  {
    AuthorizeIff(g, user, cluster, if ns == "" then "*" else ns, RequiredLevel(action));
    if role.Some? && role.value.permissions.Some? { PermissionIff(role.value.permissions.value, resource, action); }
  }

  /** The check gives the first test that fails as its reason, in the middleware's words. */
  lemma CheckReason(g: Grants, user: nat, role: Option<Role>, resource: string, action: string, cluster: nat, ns: string)
    requires Check(g, user, role, resource, action, cluster, ns) != Allow
    ensures Check(g, user, role, resource, action, cluster, ns)
         == Deny(if role == None then "role not found"
                 else if role.value.permissions == None then "invalid permissions"
                 else if !HasPermission(role.value.permissions.value, resource, action) then "insufficient permissions"
                 else "cluster access denied")
  {
  }

  lemma PermissionIff(permissions: seq<Permission>, resource: string, action: string)
    ensures HasPermission(permissions, resource, action)
            <==> exists p :: p in permissions && (p.resource == "*" || p.resource == resource)
                             && ("*" in p.actions || action in p.actions)
  {
    if i, j :| 0 <= i < |permissions| && 0 <= j < |permissions[i].actions|
               && (permissions[i].resource == "*" || permissions[i].resource == resource)
               && (permissions[i].actions[j] == "*" || permissions[i].actions[j] == action) {
      assert permissions[i] in permissions;
    }
    if p :| p in permissions && (p.resource == "*" || p.resource == resource) && ("*" in p.actions || action in p.actions) {
      var i :| 0 <= i < |permissions| && permissions[i] == p;
      var j :| 0 <= j < |p.actions| && (p.actions[j] == "*" || p.actions[j] == action);
      assert permissions[i].actions[j] == p.actions[j];
    }
  }

  /** The namespace a request names: the path's if it is not blank, or else the long query key's,
      or else the short one's; trimmed. */
  lemma ExplicitIs(request: Request)
    ensures Explicit(request)
         == if TrimSpace(request.nsParam) != "" then TrimSpace(request.nsParam)
            else if TrimSpace(request.nsQuery) != "" then TrimSpace(request.nsQuery)
            else TrimSpace(request.nsShort)
  {
    var a, b, c := request.nsParam, request.nsQuery, request.nsShort;
    assert [a, b, c][1..] == [b, c] && [b, c][1..] == [c] && [c][1..] == [];
    assert FirstNonEmpty([c]) == TrimSpace(c);
    assert FirstNonEmpty([b, c]) == if TrimSpace(b) != "" then TrimSpace(b) else FirstNonEmpty([c]);
  }

  // ---------- what the context's keys mean ----------

  predicate Concrete(ns: string) {
    ns != "" && ns != "*"
  }

  function ConcreteOf(names: seq<string>): (r: seq<string>)
    ensures forall ns :: ns in r <==> ns in names && Concrete(ns)
  {
    if names == [] then []
    else if Concrete(names[|names| - 1]) then ConcreteOf(names[..|names| - 1]) + [names[|names| - 1]]
    else ConcreteOf(names[..|names| - 1])
  }

  function Elements(names: seq<string>): (r: set<string>)
    ensures forall ns :: ns in r <==> ns in names
  {
    set ns | ns in names
  }

  lemma ElementsGrow(names: seq<string>, ns: string)
    ensures Elements(names + [ns]) == Elements(names) + {ns}
  {
  }

  /** The restriction the key expresses; None means unrestricted. */
  function AllowedSet(allowed: Option<seq<string>>): Option<set<string>> {
    if allowed == None || allowed.value == [] || allowed.value == ["*"] then None
    else
      var concrete := Elements(ConcreteOf(allowed.value));
      if concrete == {} then None else Some(concrete)
  }

  function Keep(p: string -> bool, names: seq<string>): seq<string> {
    if names == [] then []
    else
      var n := |names| - 1;
      Keep(p, names[..n]) + (if p(names[n]) then [names[n]] else [])
  }

  lemma {:induction false} KeepSame(p: string -> bool, q: string -> bool, names: seq<string>)
    requires forall ns :: p(ns) == q(ns)
    ensures Keep(p, names) == Keep(q, names)
  {
    if names != [] { KeepSame(p, q, names[..|names| - 1]); }
  }

  lemma {:induction false} KeepAll(p: string -> bool, names: seq<string>)
    requires forall ns :: p(ns)
    ensures Keep(p, names) == names
  {
    if names != [] {
      KeepAll(p, names[..|names| - 1]);
      assert names == names[..|names| - 1] + [names[|names| - 1]];
    }
  }

  function Member(names: set<string>): string -> bool {
    ns => ns in names
  }

  function Filtered(restriction: Option<set<string>>, names: seq<string>): seq<string> {
    if restriction == None then names else Keep(Member(restriction.value), names)
  }

  function PointwiseCheck(g: Grants, user: nat, role: Option<Role>, policy: Policy, cluster: nat): string -> bool {
    ns => Check(g, user, role, policy.resource, policy.action, cluster, ns) == Allow
  }

  /** The names of the list that the pointwise check lets through, in order. */
  function Checked(g: Grants, user: nat, role: Option<Role>, policy: Policy, cluster: nat, names: seq<string>): seq<string> {
    Keep(PointwiseCheck(g, user, role, policy, cluster), names)
  }

  // ---------- the authorizer ----------

  class Context {
    var keys: Keys

    constructor ()
      ensures keys == Keys(None, None, None)
    {
      keys := Keys(None, None, None);
    }

    method AllowedNamespaceSet() returns (restriction: Option<set<string>>)
      ensures restriction == AllowedSet(keys.allowed)
    {
      if keys.allowed == None || |keys.allowed.value| == 0 { return None; }
      var allowed := keys.allowed.value;
      if |allowed| == 1 && allowed[0] == "*" { return None; }
      var names: set<string> := {};
      for i := 0 to |allowed|
        invariant names == Elements(ConcreteOf(allowed[..i]))
      {
        assert allowed[..i + 1][..i] == allowed[..i];
        if allowed[i] == "" || allowed[i] == "*" { continue; }
        ElementsGrow(ConcreteOf(allowed[..i]), allowed[i]);
        names := names + {allowed[i]};
      }
      assert allowed[..|allowed|] == allowed;
      if |names| == 0 { return None; }
      return Some(names);
    }

    method NamespaceAllowed(namespace: string) returns (ok: bool)
      ensures ok == (AllowedSet(keys.allowed) == None || namespace in AllowedSet(keys.allowed).value)
    {
      var restriction := AllowedNamespaceSet();
      ok := restriction == None || namespace in restriction.value;
    }

    method FilterNamespaces(names: seq<string>) returns (kept: seq<string>)
      ensures kept == Filtered(AllowedSet(keys.allowed), names)
    {
      var restriction := AllowedNamespaceSet();
      if restriction == None { return names; }
      kept := [];
      for i := 0 to |names|
        invariant kept == Keep(Member(restriction.value), names[..i])
      {
        assert names[..i + 1][..i] == names[..i];
        if names[i] in restriction.value { kept := kept + [names[i]]; }
      }
      assert names[..|names|] == names;
    }
  }

  /** What a scope check leaves in the context, and how it ends. */
  function ScopeResult(g: Grants, user: nat, policy: Policy, request: Request, keys: Keys): (Keys, Outcome) {
    var level, denied := RequiredLevel(policy.action), Deny("cluster access denied");
    if level == "" then (keys, Deny("unsupported action"))
    else if policy.scope !in {Cluster, Namespace, NamespaceList} then (keys, Deny("unsupported authorization scope"))
    else if request.cluster == None then (keys, Deny("invalid cluster id"))
    else
      var cluster, ns := request.cluster.value, if policy.scope == Cluster then "*" else Explicit(request);
      var at := keys.(cluster := Some(cluster));
      if ns != "" then
        (at.(namespace := Some(ns)), if Authorize(g, user, cluster, ns, level) then Allow else denied)
      else if policy.scope == Namespace then (keys, Deny("namespace is required"))
      else if Authorize(g, user, cluster, "*", level) then
        (at.(namespace := Some("*"), allowed := Some(["*"])), Allow)
      else
        var concrete := ConcreteOf(g.pluck(user, cluster, level));
        if concrete == [] then (at, denied)
        else if !policy.allowFiltered then (at, Deny("namespace is required"))
        else (at.(namespace := Some(""), allowed := Some(concrete)), Allow)
  }

  function RouteResult(g: Grants, user: nat, role: Option<Role>, policy: Policy, request: Request, keys: Keys): (Keys, Outcome) {
    if policy.authenticatedOnly then (keys, Allow)
    else if role == None then (keys, Deny("role not found"))
    else if Bypass(role.value) then (keys, Allow)
    else if role.value.permissions == None then (keys, Deny("invalid permissions"))
    else if !HasPermission(role.value.permissions.value, policy.resource, policy.action) then (keys, Deny("insufficient permissions"))
    else if policy.scope == Platform || policy.scope == HandlerLevel then (keys, Allow)
    else ScopeResult(g, user, policy, request, keys)
  }

  class Authorizer {
    const grants: Grants

    constructor (g: Grants)
      ensures grants == g
    {
      grants := g;
    }

    method AuthorizeScope(c: Context, user: nat, policy: Policy, request: Request) returns (outcome: Outcome)
      modifies c
      ensures (c.keys, outcome) == ScopeResult(grants, user, policy, request, old(c.keys))
    {
      var level := RequiredLevel(policy.action);
      if level == "" { return Deny("unsupported action"); }
      match policy.scope {
        case Cluster =>
          if request.cluster == None { return Deny("invalid cluster id"); }
          c.keys := c.keys.(cluster := request.cluster, namespace := Some("*"));
          if !Authorize(grants, user, request.cluster.value, "*", level) { return Deny("cluster access denied"); }
          return Allow;
        case Namespace =>
          if request.cluster == None { return Deny("invalid cluster id"); }
          var ns := Explicit(request);
          if ns == "" { return Deny("namespace is required"); }
          c.keys := c.keys.(cluster := request.cluster, namespace := Some(ns));
          if !Authorize(grants, user, request.cluster.value, ns, level) { return Deny("cluster access denied"); }
          return Allow;
        case NamespaceList =>
          if request.cluster == None { return Deny("invalid cluster id"); }
          var cluster := request.cluster.value;
          c.keys := c.keys.(cluster := Some(cluster));
          var ns := Explicit(request);
          if ns != "" {
            c.keys := c.keys.(namespace := Some(ns));
            if !Authorize(grants, user, cluster, ns, level) { return Deny("cluster access denied"); }
            return Allow;
          }
          if Authorize(grants, user, cluster, "*", level) {
            c.keys := c.keys.(namespace := Some("*"), allowed := Some(["*"]));
            return Allow;
          }
          var namespaces := grants.pluck(user, cluster, level);
          var filtered: seq<string> := [];
          for i := 0 to |namespaces|
            invariant filtered == ConcreteOf(namespaces[..i])
            invariant c.keys == old(c.keys).(cluster := Some(cluster))
          {
            assert namespaces[..i + 1][..i] == namespaces[..i];
            if namespaces[i] != "" && namespaces[i] != "*" { filtered := filtered + [namespaces[i]]; }
          }
          assert namespaces[..|namespaces|] == namespaces;
          if |filtered| == 0 { return Deny("cluster access denied"); }
          if !policy.allowFiltered { return Deny("namespace is required"); }
          c.keys := c.keys.(allowed := Some(filtered), namespace := Some(""));
          return Allow;
        case _ =>
          return Deny("unsupported authorization scope");
      }
    }

    method Middleware(c: Context, user: nat, role: Option<Role>, policy: Policy, request: Request) returns (outcome: Outcome)
      modifies c
      ensures (c.keys, outcome) == RouteResult(grants, user, role, policy, request, old(c.keys))
    {
      if policy.authenticatedOnly { return Allow; }
      if role == None { return Deny("role not found"); }
      if role.value.isSystem || role.value.name == "admin" { return Allow; }
      if role.value.permissions == None { return Deny("invalid permissions"); }
      if !HasPermission(role.value.permissions.value, policy.resource, policy.action) { return Deny("insufficient permissions"); }
      if policy.scope == Platform || policy.scope == HandlerLevel { return Allow; }
      outcome := AuthorizeScope(c, user, policy, request);
    }
  }

  // ---------- admission against the pointwise check ----------

  function ClusterOf(request: Request): nat {
    if request.cluster == None then 0 else request.cluster.value
  }

  /** A route that passed the middleware: with the context it then sees. */
  predicate Admitted(g: Grants, user: nat, role: Option<Role>, policy: Policy, request: Request) {
    RouteResult(g, user, role, policy, request, Keys(None, None, None)).1 == Allow
  }

  function AllowedAfter(g: Grants, user: nat, role: Option<Role>, policy: Policy, request: Request): Option<set<string>> {
    AllowedSet(RouteResult(g, user, role, policy, request, Keys(None, None, None)).0.allowed)
  }

  predicate Passes(g: Grants, user: nat, role: Option<Role>, policy: Policy, request: Request, ns: string) {
    Check(g, user, role, policy.resource, policy.action, ClusterOf(request), ns) == Allow
  }

  /** An id that parses is not zero, and a route is not declared with an unknown scope. */
  predicate Routed(policy: Policy, request: Request) {
    && (request.cluster.Some? ==> request.cluster.value != 0)
    && !policy.authenticatedOnly && policy.scope != Unknown
  }

  lemma WildcardCoversAll(g: Grants, user: nat, cluster: nat, ns: string, level: string)
    ensures Authorize(g, user, cluster, ns, level)
            <==> Granted(g, user, cluster, "*", level) || Granted(g, user, cluster, ns, level)
  {
  }

  lemma RestrictionOfConcrete(names: seq<string>)
    requires names != [] && forall ns :: ns in names ==> Concrete(ns)
    ensures AllowedSet(Some(names)) == Some(Elements(names))
  {
    assert names[0] in Elements(names);
    assert Elements(ConcreteOf(names)) == Elements(names);
  }

  /** Without a wildcard grant, what the pointwise check asks for is what the query lists. */
  lemma NarrowGrants(g: Grants, user: nat, cluster: nat, ns: string, level: string)
    requires Resolves(g) && !Authorize(g, user, cluster, "*", level)
    ensures Authorize(g, user, cluster, if ns == "" then "*" else ns, level)
            <==> ns in ConcreteOf(g.pluck(user, cluster, level))
  {
    WildcardCoversAll(g, user, cluster, "*", level);
    WildcardCoversAll(g, user, cluster, ns, level);
    assert ns in g.pluck(user, cluster, level) <==> Granted(g, user, cluster, ns, level);
  }

  /** Without an explicit namespace, the pointwise check passes for exactly the names in the
      restriction left behind. */
  lemma RestrictionIsCheck(g: Grants, user: nat, role: Option<Role>, policy: Policy, request: Request, ns: string)
    requires Resolves(g) && Routed(policy, request) && policy.scope == NamespaceList
    requires Admitted(g, user, role, policy, request) && Explicit(request) == ""
    ensures var restriction := AllowedAfter(g, user, role, policy, request);
            Passes(g, user, role, policy, request, ns) <==> restriction == None || ns in restriction.value
  {
    if !Bypass(role.value) {
      var cluster, level := request.cluster.value, RequiredLevel(policy.action);
      if Authorize(g, user, cluster, "*", level) {
        WildcardCoversAll(g, user, cluster, "*", level);
        WildcardCoversAll(g, user, cluster, ns, level);
      } else {
        var concrete := ConcreteOf(g.pluck(user, cluster, level));
        RestrictionOfConcrete(concrete);
        NarrowGrants(g, user, cluster, ns, level);
      }
    }
  }

  /** The filter a handler applies keeps, in order, exactly the names for which the pointwise
      check would succeed. */
  lemma FilterEqualsCheck(g: Grants, user: nat, role: Option<Role>, policy: Policy, request: Request, names: seq<string>)
    requires Resolves(g) && Routed(policy, request) && policy.scope == NamespaceList
    requires Admitted(g, user, role, policy, request) && Explicit(request) == ""
    ensures Filtered(AllowedAfter(g, user, role, policy, request), names)
         == Checked(g, user, role, policy, ClusterOf(request), names)
  {
    var restriction, p := AllowedAfter(g, user, role, policy, request), PointwiseCheck(g, user, role, policy, ClusterOf(request));
    forall ns ensures p(ns) == (restriction == None || ns in restriction.value) {
      RestrictionIsCheck(g, user, role, policy, request, ns);
    }
    if restriction == None { KeepAll(p, names); } else { KeepSame(Member(restriction.value), p, names); }
  }

  /** No restriction is left only for an administrator or a holder of a wildcard grant. */
  lemma UnrestrictedIffWildcard(g: Grants, user: nat, role: Option<Role>, policy: Policy, request: Request)
    requires Resolves(g) && Routed(policy, request) && policy.scope == NamespaceList
    requires Admitted(g, user, role, policy, request) && Explicit(request) == ""
    ensures AllowedAfter(g, user, role, policy, request) == None
            <==> Bypass(role.value) || Granted(g, user, ClusterOf(request), "*", RequiredLevel(policy.action))
  {
    RestrictionIsCheck(g, user, role, policy, request, "*");
    WildcardCoversAll(g, user, ClusterOf(request), "*", RequiredLevel(policy.action));
  }

  // ---------- with an explicit namespace ----------

  function LongName(rows: seq<Grant>): (r: string)
    ensures |r| >= 2 && forall i :: 0 <= i < |rows| ==> |rows[i].namespace| < |r|
  {
    if rows == [] then "xx"
    else
      var n, r := |rows| - 1, LongName(rows[..|rows| - 1]);
      if |rows[n].namespace| < |r| then r else rows[n].namespace + "x"
  }

  predicate FiltersLikeCheck(g: Grants, user: nat, role: Option<Role>, policy: Policy, request: Request, names: seq<string>) {
    Filtered(AllowedAfter(g, user, role, policy, request), names) == Checked(g, user, role, policy, ClusterOf(request), names)
  }

  lemma LongNameUngranted(g: Grants, user: nat, cluster: nat, level: string)
    requires !Granted(g, user, cluster, "*", level)
    ensures !Authorize(g, user, cluster, LongName(g.rows), level) && Concrete(LongName(g.rows))
  {
    WildcardCoversAll(g, user, cluster, LongName(g.rows), level);
  }

  /** A request that names a namespace leaves no restriction behind. */
  lemma ExplicitLeavesNone(g: Grants, user: nat, role: Option<Role>, policy: Policy, request: Request)
    requires Routed(policy, request) && policy.scope == NamespaceList && Explicit(request) != ""
    ensures AllowedAfter(g, user, role, policy, request) == None
  {
  }

  lemma KeepOne(p: string -> bool, ns: string)
    ensures Keep(p, [ns]) == if p(ns) then [ns] else []
  {
    assert [ns][..0] == [];
  }

  /** A name longer than any in the table is in no grant, yet a request that names another
      namespace does not filter it out. */
  lemma UngrantedNameKept(g: Grants, user: nat, role: Option<Role>, policy: Policy, request: Request)
    requires Routed(policy, request) && policy.scope == NamespaceList
    requires Admitted(g, user, role, policy, request) && Explicit(request) != "" && !Bypass(role.value)
    requires !Granted(g, user, ClusterOf(request), "*", RequiredLevel(policy.action))
    ensures !FiltersLikeCheck(g, user, role, policy, request, [LongName(g.rows)])
  {
    var ns := LongName(g.rows);
    ExplicitLeavesNone(g, user, role, policy, request);
    assert !Passes(g, user, role, policy, request, ns) by {
      LongNameUngranted(g, user, ClusterOf(request), RequiredLevel(policy.action));
    }
    KeepOne(PointwiseCheck(g, user, role, policy, ClusterOf(request)), ns);
  }

  /** Such a request: a viewer with one grant, on team-a, asks for the namespaces of the
      cluster with team-a named in the query. */
  function TeamGrants(): Grants {
    Grants([Grant(7, 1, "team-a", "read")],
           (user, cluster, level) =>
             if user == 7 && cluster == 1 && "read" in AcceptedLevels(level) then ["team-a"] else [])
  }

  function NamespacesRoute(): Policy {
    Policy("namespaces", "view", NamespaceList, false, true)
  }

  function Viewer(): Option<Role> {
    Some(Role(false, "viewer", Some([Permission("namespaces", ["view"])])))
  }

  function TeamRequest(): Request {
    Request(Some(1), "", "team-a", "")
  }

  lemma TeamGrantsResolve()
    ensures Resolves(TeamGrants())
  {
    var g := TeamGrants();
    forall user: nat, cluster: nat, level, ns
      ensures ns in g.pluck(user, cluster, level) <==> Granted(g, user, cluster, ns, level)
    {
      if ns in g.pluck(user, cluster, level) { assert Counts(g.rows[0], user, cluster, level); }
    }
  }

  lemma TeamNamed()
    ensures Explicit(TeamRequest()) == "team-a"
  {
    assert !IsSpace("team-a"[0]) && !IsSpace("team-a"[5]);
    assert TrimSpace("team-a") == "team-a" && TrimSpace("") == "";
    assert ["", "team-a", ""][1..] == ["team-a", ""];
  }

  lemma ViewerPermitted()
    ensures HasPermission(Viewer().value.permissions.value, "namespaces", "view")
  {
    var permissions := Viewer().value.permissions.value;
    assert permissions[0].actions[0] == "view";
  }

  lemma TeamGranted(ns: string)
    ensures Authorize(TeamGrants(), 7, 1, ns, "read") <==> ns == "team-a"
  {
    assert Counts(TeamGrants().rows[0], 7, 1, "read");
  }

  lemma TeamAdmitted()
    ensures Admitted(TeamGrants(), 7, Viewer(), NamespacesRoute(), TeamRequest())
  {
    TeamNamed();
    ViewerPermitted();
    TeamGranted("team-a");
  }

  lemma OtherTeamDenied()
    ensures !Passes(TeamGrants(), 7, Viewer(), NamespacesRoute(), TeamRequest(), "team-b")
  {
    TeamGranted("team-b");
  }

  lemma NamedNamespaceIsNotFiltered()
    ensures Resolves(TeamGrants()) && Routed(NamespacesRoute(), TeamRequest())
    ensures Admitted(TeamGrants(), 7, Viewer(), NamespacesRoute(), TeamRequest())
    ensures Filtered(AllowedAfter(TeamGrants(), 7, Viewer(), NamespacesRoute(), TeamRequest()), ["team-b"]) == ["team-b"]
    ensures Checked(TeamGrants(), 7, Viewer(), NamespacesRoute(), 1, ["team-b"]) == []
  {
    TeamGrantsResolve();
    TeamAdmitted();
    TeamNamed();
    ExplicitLeavesNone(TeamGrants(), 7, Viewer(), NamespacesRoute(), TeamRequest());
    OtherTeamDenied();
    KeepOne(PointwiseCheck(TeamGrants(), 7, Viewer(), NamespacesRoute(), 1), "team-b");
  }

  /** Over all namespace-list requests that are admitted: the filter agrees with the check on
      every list just when no namespace was named in the request, or the caller is an
      administrator or holds a wildcard grant. Otherwise nothing is filtered. */
  lemma FilterExactlyWhen(g: Grants, user: nat, role: Option<Role>, policy: Policy, request: Request)
    requires Resolves(g) && Routed(policy, request) && policy.scope == NamespaceList
    requires Admitted(g, user, role, policy, request)
    ensures (forall names :: FiltersLikeCheck(g, user, role, policy, request, names))
            <==> Explicit(request) == "" || Bypass(role.value)
                 || Granted(g, user, ClusterOf(request), "*", RequiredLevel(policy.action))
  {
    if Explicit(request) == "" {
      forall names ensures FiltersLikeCheck(g, user, role, policy, request, names) {
        FilterEqualsCheck(g, user, role, policy, request, names);
      }
    } else {
      ExplicitLeavesNone(g, user, role, policy, request);
      if Bypass(role.value) || Granted(g, user, ClusterOf(request), "*", RequiredLevel(policy.action)) {
        forall names ensures FiltersLikeCheck(g, user, role, policy, request, names) {
          AllPass(g, user, role, policy, request, names);
        }
      } else {
        UngrantedNameKept(g, user, role, policy, request);
      }
    }
  }

  lemma AllPass(g: Grants, user: nat, role: Option<Role>, policy: Policy, request: Request, names: seq<string>)
    requires Admitted(g, user, role, policy, request) && Routed(policy, request) && policy.scope == NamespaceList
    requires Bypass(role.value) || Granted(g, user, ClusterOf(request), "*", RequiredLevel(policy.action))
    ensures Checked(g, user, role, policy, ClusterOf(request), names) == names
  {
    var p := PointwiseCheck(g, user, role, policy, ClusterOf(request));
    forall ns ensures p(ns) {
      WildcardCoversAll(g, user, ClusterOf(request), if ns == "" then "*" else ns, RequiredLevel(policy.action));
    }
    KeepAll(p, names);
  }

  // ---------- who is admitted ----------

  /** The pointwise checks that decide admission, scope by scope. */
  ghost predicate Deserves(g: Grants, user: nat, role: Option<Role>, policy: Policy, request: Request) {
    var cluster, ns := ClusterOf(request), Explicit(request);
    match policy.scope
    case Platform => Check(g, user, role, policy.resource, policy.action, 0, "") == Allow
    case HandlerLevel => Check(g, user, role, policy.resource, policy.action, 0, "") == Allow
    case Cluster => Passes(g, user, role, policy, request, "*")
    case Namespace => ns != "" && Passes(g, user, role, policy, request, ns)
    case NamespaceList =>
      if ns != "" then Passes(g, user, role, policy, request, ns)
      else Passes(g, user, role, policy, request, "*")
           || (policy.allowFiltered && exists n :: Concrete(n) && Passes(g, user, role, policy, request, n))
    case Unknown => false
  }

  /** A list without a named namespace: something concrete is granted just when the query
      lists something concrete. */
  lemma SomethingGranted(g: Grants, user: nat, cluster: nat, level: string)
    requires Resolves(g) && !Authorize(g, user, cluster, "*", level)
    ensures ConcreteOf(g.pluck(user, cluster, level)) != []
            <==> exists n :: Concrete(n) && Authorize(g, user, cluster, n, level)
  {
    var concrete := ConcreteOf(g.pluck(user, cluster, level));
    forall n | Concrete(n) ensures Authorize(g, user, cluster, n, level) <==> n in concrete {
      NarrowGrants(g, user, cluster, n, level);
    }
    if concrete != [] { assert Concrete(concrete[0]); }
  }

  lemma ListAdmission(g: Grants, user: nat, role: Option<Role>, policy: Policy, request: Request)
    requires Resolves(g) && Routed(policy, request) && policy.scope == NamespaceList && Explicit(request) == ""
    requires request.cluster.Some? && role.Some? && !Bypass(role.value)
    ensures Admitted(g, user, role, policy, request) <==> Deserves(g, user, role, policy, request)
  {
    var cluster, level := request.cluster.value, RequiredLevel(policy.action);
    if role.value.permissions.Some? && HasPermission(role.value.permissions.value, policy.resource, policy.action) {
      forall n: string
        ensures Passes(g, user, role, policy, request, n) == Authorize(g, user, cluster, if n == "" then "*" else n, level)
      {
        PassesByGrant(g, user, role, policy, request, n);
      }
      if !Authorize(g, user, cluster, "*", level) { SomethingGranted(g, user, cluster, level); }
    }
  }

  lemma PassesByGrant(g: Grants, user: nat, role: Option<Role>, policy: Policy, request: Request, n: string)
    requires request.cluster.Some? && request.cluster.value != 0 && role.Some? && !Bypass(role.value)
    requires role.value.permissions.Some?
    requires HasPermission(role.value.permissions.value, policy.resource, policy.action)
    ensures Passes(g, user, role, policy, request, n)
         == Authorize(g, user, request.cluster.value, if n == "" then "*" else n, RequiredLevel(policy.action))
  {
  }

  /** The middleware and the pointwise check agree on every route whose cluster id parses; an
      administrator is let through before the scope is looked at. */
  lemma AdmissionIsCheck(g: Grants, user: nat, role: Option<Role>, policy: Policy, request: Request)
    requires Resolves(g) && Routed(policy, request)
    requires request.cluster.Some? || policy.scope == Platform || policy.scope == HandlerLevel
    ensures Admitted(g, user, role, policy, request)
            <==> (role.Some? && Bypass(role.value)) || Deserves(g, user, role, policy, request)
  {
    if policy.scope == NamespaceList && Explicit(request) == "" && role.Some? && !Bypass(role.value) {
      ListAdmission(g, user, role, policy, request);
    }
  }

  /** The cluster and the namespace that an admitted request carries in its context. */
  lemma AdmittedKeys(g: Grants, user: nat, role: Option<Role>, policy: Policy, request: Request)
    requires Routed(policy, request) && Admitted(g, user, role, policy, request) && !Bypass(role.value)
    requires policy.scope != Platform && policy.scope != HandlerLevel
    ensures var keys := RouteResult(g, user, role, policy, request, Keys(None, None, None)).0;
            && keys.cluster == request.cluster && request.cluster.Some?
            && keys.namespace
               == Some(if policy.scope == Cluster then "*"
                       else if Explicit(request) != "" then Explicit(request)
                       else if Covered(g, user, request.cluster.value, "*", Strength(RequiredLevel(policy.action))) then "*"
                       else "")
  {
    AuthorizeIff(g, user, request.cluster.value, "*", RequiredLevel(policy.action));
  }

  /** The first test that fails is the reason given. */
  lemma RefusalReason(g: Grants, user: nat, role: Option<Role>, policy: Policy, request: Request)
    requires Routed(policy, request) && !Admitted(g, user, role, policy, request)
    ensures var reason := RouteResult(g, user, role, policy, request, Keys(None, None, None)).1.reason;
            var scoped := role.Some? && role.value.permissions.Some?
                          && HasPermission(role.value.permissions.value, policy.resource, policy.action);
            && (reason == "role not found" <==> role == None)
            && (reason == "invalid permissions" <==> role.Some? && role.value.permissions == None)
            && (reason == "insufficient permissions" <==> role.Some? && role.value.permissions.Some? && !scoped)
            && (reason == "unsupported action" <==> scoped && Strength(RequiredLevel(policy.action)) == 0)
            && (reason == "invalid cluster id" <==>
                  scoped && Strength(RequiredLevel(policy.action)) > 0 && request.cluster == None)
            && (reason == "namespace is required" || reason == "cluster access denied" <==>
                  scoped && Strength(RequiredLevel(policy.action)) > 0 && request.cluster.Some?)
            && (reason == "namespace is required" ==> Explicit(request) == "" && policy.scope != Cluster)
            && (reason == "cluster access denied" ==> !Authorize(g, user, ClusterOf(request),
                  if policy.scope == Cluster || Explicit(request) == "" then "*" else Explicit(request), RequiredLevel(policy.action)))
  {
    ActionStrength(policy.action);
  }

  /** A whole request: admitted, then a handler filters a list. A request that names a
      namespace gets the list as it is. */
  method ListNamespaceNames(a: Authorizer, user: nat, role: Option<Role>, policy: Policy, request: Request, names: seq<string>)
    returns (outcome: Outcome, kept: seq<string>)
    requires Resolves(a.grants) && Routed(policy, request) && policy.scope == NamespaceList
    ensures outcome == Allow <==> Admitted(a.grants, user, role, policy, request)
    ensures outcome == Allow ==>
              kept == if Explicit(request) == "" then Checked(a.grants, user, role, policy, ClusterOf(request), names) else names
    ensures outcome != Allow ==> kept == []
  {
    var c := new Context();
    outcome := a.Middleware(c, user, role, policy, request);
    if outcome != Allow { return outcome, []; }
    if Explicit(request) == "" {
      FilterEqualsCheck(a.grants, user, role, policy, request, names);
    } else {
      ExplicitLeavesNone(a.grants, user, role, policy, request);
    }
    kept := c.FilterNamespaces(names);
  }
}
