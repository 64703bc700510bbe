/** Request scope, grant evaluation and the permission check. */
module Grants {
  import opened Scopes

  datatype Grant = Grant(client: nat, tenant: string, application: Option<string>, ns: Namespace,
                         wildcard: bool, scopes: set<string>)

  predicate ReachesNamespace(g: Grant, scope: Namespace) {
    g.wildcard || (if scope.IsGlobal() then g.ns == GLOBAL else g.ns == scope)
  }

  predicate Authorizes(g: Grant, tenant: string, application: Option<string>, scope: Namespace,
                       required: string) {
    if g.tenant != tenant || required !in g.scopes then false
    else if g.application.Some? && g.application != application then false
    else if !scope.IsGlobal() && application.None? then false
    else ReachesNamespace(g, scope)
  }

  /** A grant authorizes nothing outside its tenant, its service scopes and its application. Over the
      scopes a request can have, an exact grant reaches its own namespace and nothing else, global
      included; a global grant reaches global alone; a wildcard reaches every namespace. */
  lemma GrantsPartitionScopes(g: Grant, tenant: string, application: string, scope: Namespace,
                              required: string)
    requires IsScopeContext(scope) && (g.wildcard ==> g.ns == GLOBAL)
    ensures Authorizes(g, tenant, Some(application), scope, required)
            <==> && g.tenant == tenant && required in g.scopes && (g.wildcard || g.ns == scope)
                 && (g.application.None? || g.application == Some(application))
    ensures Authorizes(g, tenant, None, scope, required)
            <==> && g.tenant == tenant && required in g.scopes && (g.wildcard || g.ns == GLOBAL)
                 && g.application.None? && scope == GLOBAL
  {}

  predicate Covers(grants: seq<Grant>, tenant: string, target: Option<string>, scope: Namespace,
                   required: string) {
    exists g :: g in grants && Authorizes(g, tenant, target, scope, required)
  }

  /** Every application the request names is covered in the scope. */
  predicate CoversAll(grants: seq<Grant>, tenant: string, targets: set<Option<string>>,
                      scope: Namespace, required: string) {
    forall target | target in targets :: Covers(grants, tenant, target, scope, required)
  }

  function TenantGrants(table: seq<Grant>, client: nat, tenant: string): (grants: seq<Grant>)
    ensures forall g :: g in grants <==> g in table && g.client == client && g.tenant == tenant
  {
    if table == [] then []
    else
      var rest := TenantGrants(table[..|table| - 1], client, tenant);
      var last := table[|table| - 1];
      if last.client == client && last.tenant == tenant then rest + [last] else rest
  }

  /** The grants among a list that carry a service scope, in order. */
  function WithScope(grants: seq<Grant>, required: string): (kept: seq<Grant>)
    ensures forall g :: g in kept <==> g in grants && required in g.scopes
  {
    if grants == [] then []
    else if required in grants[0].scopes then [grants[0]] + WithScope(grants[1..], required)
    else WithScope(grants[1..], required)
  }

  /** The requested scopes that the grants authorize for one application. */
  function AuthorizedScopes(grants: seq<Grant>, tenant: string, application: Option<string>,
                            requested: seq<Namespace>, required: string): set<Namespace> {
    set s | s in requested && Covers(grants, tenant, application, s, required)
  }

  /** The requested scopes that the grants authorize for every target. */
  function CommonScopes(grants: seq<Grant>, tenant: string, targets: set<Option<string>>,
                        requested: seq<Namespace>, required: string): (common: set<Namespace>)
    requires targets != {}
    ensures forall s :: s in common <==> s in requested && CoversAll(grants, tenant, targets, s, required)
  {
    set s | s in requested
            && forall t | t in targets :: s in AuthorizedScopes(grants, tenant, t, requested, required)
  }

  /** The applications a request names; a body counts only when the method writes. */
  function ApplicationIds(query: Option<string>, body: Option<string>, safe: bool): (ids: set<string>)
    ensures forall a :: a in ids <==> a != "" && (query == Some(a) || (!safe && body == Some(a)))
  {
    (if Named(query) then {query.value} else {})
    + (if !safe && Named(body) then {body.value} else {})
  }

  function Targets(ids: set<string>): (targets: set<Option<string>>)
    ensures targets != {}
    ensures None in targets <==> ids == {}
    ensures forall a :: Some(a) in targets <==> a in ids
  {
    if ids == {} then {None}
    else
      var targets := set a | a in ids :: Some(a);
      assert forall a :: a in ids ==> Some(a) in targets;
      targets
  }

  /** What admission asks of the grants: they cover the application of the query if it names one, the
      application of the body if the method writes and it names one, and no application at all if the
      request names none. */
  predicate NamedCovered(grants: seq<Grant>, tenant: string, query: Option<string>, body: Option<string>,
                         safe: bool, scope: Namespace, required: string)
  {
    && (Named(query) ==> Covers(grants, tenant, query, scope, required))
    && (!safe && Named(body) ==> Covers(grants, tenant, body, scope, required))
    && (!Named(query) && (safe || !Named(body)) ==> Covers(grants, tenant, None, scope, required))
  }

  /** Each application a request names is one some grant is open to, or is bound to. */
  predicate NamedMatched(grants: seq<Grant>, query: Option<string>, body: Option<string>, safe: bool) {
    && (Named(query) ==> exists g :: g in grants && g.application in {None, query})
    && (!safe && Named(body) ==> exists g :: g in grants && g.application in {None, body})
    && (!Named(query) && (safe || !Named(body)) ==> exists g :: g in grants && g.application.None?)
  }

  lemma TargetsAreNamed(query: Option<string>, body: Option<string>, safe: bool, t: Option<string>)
    ensures t in Targets(ApplicationIds(query, body, safe))
            <==> || (t == query && Named(query))
                 || (t == body && Named(body) && !safe)
                 || (t.None? && !Named(query) && (safe || !Named(body)))
  {
    var ids := ApplicationIds(query, body, safe);
    if Named(query) {
      assert query.value in ids;
    } else if Named(body) && !safe {
      assert body.value in ids;
    } else {
      assert ids == {};
    }
  }

  /** The target sets the permission check computes with say no more and no less. */
  lemma TargetsAsNamed(grants: seq<Grant>, tenant: string, query: Option<string>, body: Option<string>,
                       safe: bool, required: string)
    ensures forall s :: CoversAll(grants, tenant, Targets(ApplicationIds(query, body, safe)), s, required)
                        <==> NamedCovered(grants, tenant, query, body, safe, s, required)
    ensures ApplicationsMatch(grants, Targets(ApplicationIds(query, body, safe)))
            <==> NamedMatched(grants, query, body, safe)
  {
    forall t ensures t in Targets(ApplicationIds(query, body, safe))
                     <==> || (t == query && Named(query))
                          || (t == body && Named(body) && !safe)
                          || (t.None? && !Named(query) && (safe || !Named(body)))
    {
      TargetsAreNamed(query, body, safe, t);
    }
  }

  /** Some grant of the client in the tenant carries the service scope. */
  predicate Carries(table: seq<Grant>, client: nat, tenant: string, required: string) {
    exists g :: g in table && g.client == client && g.tenant == tenant && required in g.scopes
  }

  // ----- Request headers

  const MAX_NAMESPACE_LENGTH := 100

  datatype ScopeError =
    NotSupported | TypeRequired | IdRequired | Blank | Folded | Overlong | Reserved | ApiDisabled

  predicate IsTrue(text: string) {
    |text| == 4 && text[0] in "tT" && text[1] in "rR" && text[2] in "uU" && text[3] in "eE"
  }

  predicate WellFormedHeader(text: string) {
    !IsBlank(text) && ',' !in text && |text| <= MAX_NAMESPACE_LENGTH
  }

  /** Which pairs of namespace headers a deployment serves. */
  predicate ServesHeaders(v2: bool, kind: Option<string>, id: Option<string>, v2Enabled: bool) {
    || (kind.None? && id.None?)
    || (v2 && v2Enabled && kind.Some? && id.Some?
        && WellFormedHeader(kind.value) && WellFormedHeader(id.value)
        && kind.value != RESERVED_KIND)
  }

  /** What is wrong with a pair of headers; a pair with several faults answers with the first. */
  predicate HeaderFault(e: ScopeError, kind: Option<string>, id: Option<string>) {
    match e
    case TypeRequired => kind.None? && id.Some?
    case IdRequired => kind.Some? && id.None?
    case Blank => kind.Some? && id.Some? && (IsBlank(kind.value) || IsBlank(id.value))
    case Folded =>
      && kind.Some? && id.Some? && !IsBlank(kind.value) && !IsBlank(id.value)
      && (',' in kind.value || ',' in id.value)
    case Overlong =>
      && kind.Some? && id.Some? && !IsBlank(kind.value) && !IsBlank(id.value)
      && ',' !in kind.value && ',' !in id.value && Max(|kind.value|, |id.value|) > MAX_NAMESPACE_LENGTH
    case Reserved =>
      && kind.Some? && id.Some? && WellFormedHeader(kind.value) && WellFormedHeader(id.value)
      && kind.value == RESERVED_KIND
    case NotSupported | ApiDisabled => false
  }

  method ScopeFromHeaders(kind: Option<string>, id: Option<string>)
    returns (r: Result<Namespace, ScopeError>)
    ensures r.Ok? <==> ServesHeaders(true, kind, id, true)
    ensures r.Ok? ==> r.value == Namespace(kind, id) && IsScopeContext(r.value)
    ensures forall e :: r == Err(e) <==> HeaderFault(e, kind, id)
  {
    if kind.None? && id.None? { return Ok(GLOBAL); }
    if kind.None? { return Err(TypeRequired); }
    if id.None? { return Err(IdRequired); }
    if IsBlank(kind.value) || IsBlank(id.value) { return Err(Blank); }
    if ',' in kind.value || ',' in id.value { return Err(Folded); }
    if |kind.value| > MAX_NAMESPACE_LENGTH || |id.value| > MAX_NAMESPACE_LENGTH {
      return Err(Overlong);
    }
    if kind.value == RESERVED_KIND { return Err(Reserved); }
    r := Ok(Namespace(kind, id));
  }

  function LowerCase(c: char): char {
    if 'A' <= c <= 'Z' then c - 'A' + 'a' else c
  }

  function Lowered(text: string): (lowered: string)
    ensures |lowered| == |text|
  {
    seq(|text|, i requires 0 <= i < |text| => LowerCase(text[i]))
  }

  lemma TrueInAnyCase(text: string)
    ensures IsTrue(text) <==> Lowered(text) == "true"
  {
    if |text| == 4 {
      assert Lowered(text)
             == [LowerCase(text[0]), LowerCase(text[1]), LowerCase(text[2]), LowerCase(text[3])];
    }
  }

  /** Whether query parameters ask for global rows: the opt-in, or a global pin on the resolution
      endpoint alone. */
  predicate WantsGlobal(includeGlobal: Option<string>, onResolution: bool, pin: Option<string>) {
    || (includeGlobal.Some? && IsTrue(includeGlobal.value))
    || (onResolution && pin == Some("global"))
  }

  // ----- The request

  datatype Denial =
    | Unauthenticated | TenantRequired | NoDeclaredScope | TenantMismatch | ScopeDenied
    | WritesDisabled | NamespaceDenied | ApplicationMismatch

  datatype CacheEntry = CacheEntry(client: nat, tenant: string, grants: seq<Grant>)

  class Request {
    const safe: bool
    const queryApplication: Option<string>
    const bodyApplication: Option<string>
    const tenant: Option<string>
    var client: Option<nat>
    var scope: Namespace
    var requested: seq<Namespace>
    var requiredScope: Option<string>
    var authorized: Option<set<Namespace>>
    var authorizedGlobalReferences: Option<bool>
    var cache: Option<CacheEntry>

    constructor (safe: bool, queryApplication: Option<string>, bodyApplication: Option<string>,
                 tenant: Option<string>)
      ensures this.safe == safe && this.queryApplication == queryApplication
      ensures this.bodyApplication == bodyApplication && this.tenant == tenant
      ensures scope == GLOBAL && requested == [GLOBAL] && cache.None? && authorized.None?
    {
      this.safe, this.tenant := safe, tenant;
      this.queryApplication, this.bodyApplication := queryApplication, bodyApplication;
      client, requiredScope, authorized, authorizedGlobalReferences := None, None, None, None;
      scope, requested, cache := GLOBAL, [GLOBAL], None;
    }

    function Ids(): set<string> {
      ApplicationIds(queryApplication, bodyApplication, safe)
    }

    /** Sets the request's scope from its headers, and the scopes it asks to be authorized for. */
    method ResolveScopeContext(v2: bool, kind: Option<string>, id: Option<string>,
                               includeGlobal: Option<string>, onResolution: bool,
                               pin: Option<string>, v2Enabled: bool)
      returns (r: Result<(), ScopeError>)
      modifies this`scope, this`requested
      ensures r.Ok? <==> ServesHeaders(v2, kind, id, v2Enabled)
      ensures r.Ok? ==> scope == Namespace(kind, id) && IsScopeContext(scope) && requested != []
      ensures r.Ok? ==> forall s :: s in requested <==>
                || s == scope
                || (s == GLOBAL && v2 && includeGlobal.Some? && Lowered(includeGlobal.value) == "true")
                || (s == GLOBAL && v2 && onResolution && pin == Some("global"))
      ensures r == Err(NotSupported) <==> !v2 && (kind.Some? || id.Some?)
      ensures r == Err(ApiDisabled) <==> v2 && !v2Enabled && kind.Some? && ServesHeaders(true, kind, id, true)
      ensures forall e :: v2 && HeaderFault(e, kind, id) ==> r == Err(e)
    {
      if includeGlobal.Some? { TrueInAnyCase(includeGlobal.value); }
      if !v2 {
        if kind.Some? || id.Some? { return Err(NotSupported); }
        scope, requested := GLOBAL, [GLOBAL];
        return Ok(());
      }
      var resolved := ScopeFromHeaders(kind, id);
      if resolved.Err? { return Err(resolved.error); }
      if !resolved.value.IsGlobal() && !v2Enabled { return Err(ApiDisabled); }
      scope := resolved.value;
      requested := if WantsGlobal(includeGlobal, onResolution, pin) && !scope.IsGlobal()
                   then [scope, GLOBAL] else [scope];
      r := Ok(());
    }

    /** What the cache holds is what the table holds for the principal it is keyed on. */
    ghost predicate Cached(table: seq<Grant>)
      reads this`cache
    {
      cache.Some? ==>
        cache.value.grants == TenantGrants(table, cache.value.client, cache.value.tenant)
    }

    /** The client's grants for one tenant, read once. A request object reused for another client
        or tenant misses the cache, so it never sees another principal's grants. */
    method RequestTenantGrants(table: seq<Grant>, client: nat, tenant: string)
      returns (grants: seq<Grant>)
      requires Cached(table)
      modifies this`cache
      ensures Cached(table)
      ensures grants == TenantGrants(table, client, tenant)
      ensures cache == Some(CacheEntry(client, tenant, grants))
    {
      if cache.Some? && cache.value.client == client && cache.value.tenant == tenant {
        return cache.value.grants;
      }
      grants := TenantGrants(table, client, tenant);
      cache := Some(CacheEntry(client, tenant, grants));
    }

    /** Admission: past authentication and the tenant header, a request is admitted exactly when the
        grants cover every application it names in its scope and a namespaced write is enabled. What
        it is authorized for are exactly the requested scopes they cover in the same way. */
    method HasPermission(table: seq<Grant>, authentication: Option<nat>, declared: Option<string>,
                         writeEnabled: bool)
      returns (r: Result<(), Denial>)
      requires Cached(table) && scope in requested
      modifies this
      ensures scope == old(scope) && requested == old(requested) && Cached(table)
      ensures r.Ok? <==>
                && authentication.Some? && Named(tenant) && Named(declared)
                && NamedCovered(TenantGrants(table, authentication.value, tenant.value), tenant.value,
                                queryApplication, bodyApplication, safe, scope, declared.value)
                && (safe || scope.IsGlobal() || writeEnabled)
      ensures r.Ok? ==> client == authentication && requiredScope == declared
      ensures r.Ok? ==> authorized.Some? && authorizedGlobalReferences.Some?
      ensures r.Ok? ==>
                forall s :: s in authorized.value <==>
                  s in requested
                  && NamedCovered(TenantGrants(table, authentication.value, tenant.value), tenant.value,
                                  queryApplication, bodyApplication, safe, s, declared.value)
      ensures r.Ok? ==>
                authorizedGlobalReferences.value
                == NamedCovered(TenantGrants(table, authentication.value, tenant.value), tenant.value,
                                queryApplication, bodyApplication, safe, GLOBAL, declared.value)
      ensures forall e :: r == Err(e) <==> DeniedFor(e, table, authentication, declared, writeEnabled)
    {
      if authentication.None? { return Err(Unauthenticated); }
      client := authentication;
      if !Named(tenant) { return Err(TenantRequired); }
      if !Named(declared) { return Err(NoDeclaredScope); }
      requiredScope := declared;
      var held := RequestTenantGrants(table, authentication.value, tenant.value);
      CarriedIsKept(table, authentication.value, tenant.value, declared.value);
      r := AuthorizeHeld(held, declared.value, writeEnabled);
    }

    /** Which denial each failed check answers with. */
    ghost predicate DeniedFor(e: Denial, table: seq<Grant>, authentication: Option<nat>,
                              declared: Option<string>, writeEnabled: bool)
      reads this`scope
    {
      match e
      case Unauthenticated => authentication.None?
      case TenantRequired => authentication.Some? && !Named(tenant)
      case NoDeclaredScope => authentication.Some? && Named(tenant) && !Named(declared)
      case _ =>
        && authentication.Some? && Named(tenant) && Named(declared)
        && var held := TenantGrants(table, authentication.value, tenant.value);
        HeldDeniedFor(e, held, Carries(table, authentication.value, tenant.value, declared.value),
                      declared.value, writeEnabled)
    }

    /** The denials of an authenticated request, given its client's grants in the tenant and whether
        any of them carries the service scope. */
    ghost predicate HeldDeniedFor(e: Denial, held: seq<Grant>, carried: bool, required: string,
                                  writeEnabled: bool)
      requires tenant.Some?
      reads this`scope
    {
      var covered := CoveredIn(held, scope, required);
      var matched := NamedMatched(WithScope(held, required), queryApplication, bodyApplication, safe);
      match e
      case TenantMismatch => held == []
      case ScopeDenied => held != [] && !carried
      case WritesDisabled => covered && !safe && !scope.IsGlobal() && !writeEnabled
      case NamespaceDenied => carried && !covered && (!scope.IsGlobal() || matched)
      case ApplicationMismatch => carried && scope.IsGlobal() && !matched
      case _ => false
    }

    /** Whether the grants cover the request's applications in a scope. */
    predicate CoveredIn(held: seq<Grant>, s: Namespace, required: string)
      requires tenant.Some?
    {
      NamedCovered(held, tenant.value, queryApplication, bodyApplication, safe, s, required)
    }

    /** The permission check over the tenant's grants. */
    method AuthorizeHeld(held: seq<Grant>, required: string, writeEnabled: bool) returns (r: Result<(), Denial>)
      requires tenant.Some? && scope in requested
      modifies this`authorized, this`authorizedGlobalReferences
      ensures r.Ok? <==> CoveredIn(held, scope, required) && (safe || scope.IsGlobal() || writeEnabled)
      ensures r.Ok? ==>
                && authorized.Some?
                && (forall s :: s in authorized.value <==> s in requested && CoveredIn(held, s, required))
                && authorizedGlobalReferences == Some(CoveredIn(held, GLOBAL, required))
      ensures forall e :: r == Err(e) <==>
                HeldDeniedFor(e, held, WithScope(held, required) != [], required, writeEnabled)
    {
      var grants := WithScope(held, required);
      if grants == [] { NoGrants(held, tenant.value, queryApplication, bodyApplication, safe, scope, required); }
      if held == [] { return Err(TenantMismatch); }
      if grants == [] { return Err(ScopeDenied); }
      r := Authorize(held, grants, required, writeEnabled);
    }

    /** The second half of the permission check, over the grants that carry the scope. */
    method Authorize(ghost held: seq<Grant>, grants: seq<Grant>, required: string, writeEnabled: bool)
      returns (r: Result<(), Denial>)
      requires tenant.Some? && grants == WithScope(held, required) && scope in requested
      modifies this`authorized, this`authorizedGlobalReferences
      ensures authorized.Some?
      ensures forall s :: s in authorized.value <==> s in requested && CoveredIn(held, s, required)
      ensures authorizedGlobalReferences == Some(CoveredIn(held, GLOBAL, required))
      ensures var covered := CoveredIn(held, scope, required);
              var matched := NamedMatched(grants, queryApplication, bodyApplication, safe);
              && (r.Ok? <==> covered && (safe || scope.IsGlobal() || writeEnabled))
              && (r == Err(WritesDisabled) <==> covered && !safe && !scope.IsGlobal() && !writeEnabled)
              && (r == Err(NamespaceDenied) <==> !covered && (!scope.IsGlobal() || matched))
              && (r == Err(ApplicationMismatch) <==> scope.IsGlobal() && !matched)
    {
      var targets := Targets(Ids());
      FilteredGrants(held, tenant.value, targets, required);
      MatchFromCover(grants, tenant.value, targets, scope, required);
      TargetsAsNamed(held, tenant.value, queryApplication, bodyApplication, safe, required);
      TargetsAsNamed(grants, tenant.value, queryApplication, bodyApplication, safe, required);
      authorized := Some(CommonScopes(grants, tenant.value, targets, requested, required));
      authorizedGlobalReferences := Some(CoversAll(grants, tenant.value, targets, GLOBAL, required));
      if scope in authorized.value {
        if !safe && !scope.IsGlobal() && !writeEnabled { return Err(WritesDisabled); }
        return Ok(());
      }
      if !scope.IsGlobal() || ApplicationsMatch(grants, targets) { return Err(NamespaceDenied); }
      r := Err(ApplicationMismatch);
    }

    /** The applications the caller may reach in its namespace; None when unrestricted. */
    method AuthorizedApplicationIds(table: seq<Grant>) returns (ids: Option<set<string>>)
      requires Cached(table)
      modifies this`cache
      ensures Cached(table)
      ensures client.None? || !Named(tenant) ==> ids.None?
      ensures client.Some? && Named(tenant) && Named(requiredScope) ==>
                forall a :: (ids.None? || a in ids.value) <==>
                  Covers(TenantGrants(table, client.value, tenant.value), tenant.value, Some(a), scope,
                         requiredScope.value)
      ensures client.Some? && Named(tenant) && !Named(requiredScope) ==>
                forall a :: (ids.None? || a in ids.value) <==>
                  exists g :: g in TenantGrants(table, client.value, tenant.value)
                              && ReachesNamespace(g, scope) && g.application in {None, Some(a)}
    {
      if client.None? || !Named(tenant) { return None; }
      var grants := RequestTenantGrants(table, client.value, tenant.value);
      ids := BoundApplications(grants, tenant.value, requiredScope, scope);
    }
  }

  /** The applications some grants reach; None when one of them is bound to none. */
  method BoundApplications(grants: seq<Grant>, tenant: string, required: Option<string>, scope: Namespace)
    returns (ids: Option<set<string>>)
    requires forall g :: g in grants ==> g.tenant == tenant
    ensures Named(required) ==>
              forall a :: (ids.None? || a in ids.value) <==> Covers(grants, tenant, Some(a), scope, required.value)
    ensures !Named(required) ==>
              forall a :: (ids.None? || a in ids.value) <==>
                exists g :: g in grants && ReachesNamespace(g, scope) && g.application in {None, Some(a)}
  {
    var found: set<string> := {};
    for n := 0 to |grants|
      invariant Binds(grants[..n], found, required, scope)
    {
      assert grants[..n + 1] == grants[..n] + [grants[n]];
      var g := grants[n];
      BindsNext(grants[..n], found, g, required, scope);
      if !Reaches(g, required, scope) { continue; }
      if g.application.None? {
        UnrestrictedCovers(grants, g, tenant, required, scope);
        return None;
      }
      found := found + {g.application.value};
    }
    assert grants[..|grants|] == grants;
    BoundCovers(grants, found, tenant, required, scope);
    ids := Some(found);
  }

  /** A grant that carries the scope, if one is required, and reaches the namespace. */
  predicate Reaches(g: Grant, required: Option<string>, scope: Namespace) {
    (Named(required) ==> required.value in g.scopes) && ReachesNamespace(g, scope)
  }

  lemma UnrestrictedCovers(grants: seq<Grant>, g: Grant, tenant: string, required: Option<string>,
                           scope: Namespace)
    requires g in grants && g.tenant == tenant && g.application.None? && Reaches(g, required, scope)
    ensures Named(required) ==> forall a :: Covers(grants, tenant, Some(a), scope, required.value)
  {}

  /** The grants that reach the namespace are each bound to an application, and these are they. */
  ghost predicate Binds(grants: seq<Grant>, found: set<string>, required: Option<string>, scope: Namespace) {
    && (forall g :: g in grants && Reaches(g, required, scope) ==> g.application.Some?)
    && (forall a :: a in found <==>
          exists g :: g in grants && Reaches(g, required, scope) && g.application == Some(a))
  }

  lemma BindsNext(grants: seq<Grant>, found: set<string>, g: Grant, required: Option<string>, scope: Namespace)
    requires Binds(grants, found, required, scope)
    ensures !Reaches(g, required, scope) ==> Binds(grants + [g], found, required, scope)
    ensures Reaches(g, required, scope) && g.application.Some? ==>
              Binds(grants + [g], found + {g.application.value}, required, scope)
  {}

  lemma BoundCovers(grants: seq<Grant>, found: set<string>, tenant: string, required: Option<string>,
                    scope: Namespace)
    requires forall g :: g in grants ==> g.tenant == tenant
    requires Binds(grants, found, required, scope)
    ensures Named(required) ==>
              forall a :: a in found <==> Covers(grants, tenant, Some(a), scope, required.value)
  {}

  predicate ApplicationsMatch(grants: seq<Grant>, targets: set<Option<string>>) {
    forall t | t in targets :: MatchesOne(grants, t)
  }

  predicate MatchesOne(grants: seq<Grant>, target: Option<string>) {
    exists g :: g in grants && (g.application.None? || g.application == target)
  }

  lemma NoGrants(grants: seq<Grant>, tenant: string, query: Option<string>, body: Option<string>, safe: bool,
                 scope: Namespace, required: string)
    requires WithScope(grants, required) == []
    ensures !NamedCovered(grants, tenant, query, body, safe, scope, required)
  {}

  lemma CarriedIsKept(table: seq<Grant>, client: nat, tenant: string, required: string)
    ensures Carries(table, client, tenant, required)
            <==> WithScope(TenantGrants(table, client, tenant), required) != []
  {
    var kept := WithScope(TenantGrants(table, client, tenant), required);
    if kept != [] {
      assert kept[0] in kept;
    }
  }

  lemma FilteredGrants(grants: seq<Grant>, tenant: string, targets: set<Option<string>>,
                       required: string)
    ensures forall s :: CoversAll(WithScope(grants, required), tenant, targets, s, required)
                        <==> CoversAll(grants, tenant, targets, s, required)
  {}

  lemma MatchFromCover(grants: seq<Grant>, tenant: string, targets: set<Option<string>>,
                       scope: Namespace, required: string)
    ensures CoversAll(grants, tenant, targets, scope, required) ==> ApplicationsMatch(grants, targets)
  {}

  /** What an admitted request leaves for the views: exactly the requested scopes covered for every
      application it names, its own among them. */
  ghost predicate Admitted(grants: seq<Grant>, tenant: string, scope: Namespace,
                           requested: seq<Namespace>, targets: set<Option<string>>,
                           required: string, authorized: set<Namespace>) {
    && scope in authorized
    && forall s :: s in authorized <==>
         s in requested && CoversAll(grants, tenant, targets, s, required)
  }
}
