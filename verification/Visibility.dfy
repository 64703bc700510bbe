/** What an admitted request can read: the row filters agree with the grants. */
module Visibility {
  import opened Scopes
  import opened Grants
  import opened Resolution
  import opened ResolutionTheorems

  datatype Row = Row(tenant: string, application: Option<string>, ns: Namespace)

  /** A request after the permission check, as the read endpoints see it. */
  datatype Admission = Admission(
    grants: seq<Grant>, tenant: string, scope: Namespace, requested: seq<Namespace>,
    ids: set<string>, required: string, authorized: set<Namespace>)
  {
    /** The scope resolver asked for the request's scope and at most the global one besides, and
        the permission check admitted the request. */
    ghost predicate Valid() {
      && IsScopeContext(scope)
      && (forall s :: s in requested ==> s == scope || s == GLOBAL)
      && Admitted(grants, tenant, scope, requested, Targets(ids), required, authorized)
    }

    predicate IncludeGlobal() {
      GLOBAL in authorized
    }
  }

  /** The application filter of the list endpoints. */
  predicate InListedApplication(query: Option<string>, includeShared: bool, row: Row) {
    Named(query) ==> row.application == query || (includeShared && row.application.None?)
  }

  predicate Listed(a: Admission, query: Option<string>, includeShared: bool, row: Row) {
    && row.tenant == a.tenant
    && MatchesScope(row.ns, a.scope, a.IncludeGlobal())
    && InListedApplication(query, includeShared, row)
  }

  /** The application filter of a fetch by id; None is no filter. */
  predicate InApplications(ids: Option<set<string>>, includeShared: bool, row: Row) {
    ids.Some? ==>
      || (row.application.Some? && row.application.value != "" && row.application.value in ids.value)
      || (includeShared && row.application.None?)
  }

  /** Reads and deletes bind the row to the applications the request names. */
  function NamedIds(ids: set<string>): Option<set<string>> {
    if ids == {} then None else Some(ids)
  }

  predicate Fetched(a: Admission, includeGlobal: bool, ids: Option<set<string>>, includeShared: bool,
                    row: Row) {
    && row.tenant == a.tenant
    && MatchesScope(row.ns, a.scope, includeGlobal)
    && InApplications(ids, includeShared, row)
  }

  /** Some grant authorizes the row's namespace for an application the request names, the row is in
      that application or shared or the grant is tenant-wide, and a row of an application is in a
      namespace some grant authorizes for that very application. */
  ghost predicate Entitled(a: Admission, row: Row) {
    && row.tenant == a.tenant
    && (exists t :: t in Targets(a.ids) && Covers(a.grants, a.tenant, t, row.ns, a.required)
                    && (row.application.None? || t.None? || row.application == t))
    && (row.application.Some? ==> Covers(a.grants, a.tenant, row.application, row.ns, a.required))
  }

  /** A grant that covers a request naming no application is tenant-wide and the scope is global. */
  lemma NoApplicationIsTenantWide(grants: seq<Grant>, tenant: string, scope: Namespace,
                                  required: string)
    requires Covers(grants, tenant, None, scope, required)
    ensures scope.IsGlobal()
    ensures exists g :: g in grants && g.application.None? && Authorizes(g, tenant, None, scope, required)
    ensures forall app :: Covers(grants, tenant, app, scope, required)
  {}

  /** The namespace filter lets a row through exactly when the grants authorize its namespace for
      every application the request names and the request asked for it. */
  lemma NamespaceFilterAgrees(a: Admission, ns: Namespace)
    requires a.Valid()
    ensures MatchesScope(ns, a.scope, a.IncludeGlobal())
            <==> ns in a.requested && CoversAll(a.grants, a.tenant, Targets(a.ids), ns, a.required)
  {}

  /** A list returns exactly the rows the request is entitled to in the namespaces it asked for: those
      of the application it names, and shared ones when it wants them; all of them when it names none. */
  lemma ListsAreExact(a: Admission, query: Option<string>, includeShared: bool, row: Row)
    requires a.Valid() && a.ids == ApplicationIds(query, None, true)
    ensures Listed(a, query, includeShared, row)
            <==> && Entitled(a, row) && row.ns in a.requested
                 && (!Named(query) || row.application == query || (includeShared && row.application.None?))
  {
    ForTheQuery(a, query);
    NamespaceFilterAgrees(a, row.ns);
  }

  /** A read that names no more than the query's application has that one target, or none. */
  lemma ForTheQuery(a: Admission, query: Option<string>)
    requires a.ids == ApplicationIds(query, None, true)
    ensures forall t :: t in Targets(a.ids) <==> t == if Named(query) then query else None
  {
    forall t ensures t in Targets(a.ids) <==> t == if Named(query) then query else None {
      TargetsAreNamed(query, None, true, t);
    }
  }

  /** A read or a delete finds by id exactly the rows the request is entitled to, in the namespaces it
      asked for and the applications it names; a delete never falls back to global rows. */
  lemma FetchesAreExact(a: Admission, query: Option<string>, body: Option<string>, safe: bool,
                        includeShared: bool, row: Row)
    requires a.Valid() && a.ids == ApplicationIds(query, body, safe)
    ensures Fetched(a, safe && a.IncludeGlobal(), NamedIds(a.ids), includeShared, row)
            <==> && Entitled(a, row) && row.ns in a.requested && (safe || row.ns == a.scope)
                 && (|| (!Named(query) && (safe || !Named(body)))
                     || (Named(query) && row.application == query)
                     || (!safe && Named(body) && row.application == body)
                     || (includeShared && row.application.None?))
  {
    forall t ensures t in Targets(a.ids)
                     <==> || (t == query && Named(query))
                          || (t == body && Named(body) && !safe)
                          || (t.None? && !Named(query) && (safe || !Named(body)))
    {
      TargetsAreNamed(query, body, safe, t);
    }
    NamespaceFilterAgrees(a, row.ns);
  }

  /** A patch finds exactly the rows of the request's own namespace in applications the caller is
      granted there, and shared ones when it wants them or is unrestricted. The set is the one the
      permission layer computes for that. */
  lemma PatchesAreExact(a: Admission, ids: Option<set<string>>, includeShared: bool, row: Row)
    requires a.Valid()
    requires forall app :: (ids.None? || app in ids.value)
                           <==> Covers(a.grants, a.tenant, Some(app), a.scope, a.required)
    ensures Fetched(a, false, ids, includeShared, row)
            <==> && row.tenant == a.tenant && row.ns == a.scope
                 && (row.application.Some? ==>
                       && Covers(a.grants, a.tenant, row.application, row.ns, a.required)
                       && (row.application.value != "" || ids.None?))
                 && (row.application.None? ==> includeShared || ids.None?)
    ensures Fetched(a, false, ids, includeShared, row) && row.application.None? ==> Entitled(a, row)
  {}

  /** More grants never refuse what fewer admit, and never narrow what is authorized. */
  lemma AdmissionIsMonotone(few: seq<Grant>, many: seq<Grant>, tenant: string,
                            targets: set<Option<string>>, requested: seq<Namespace>, required: string)
    requires forall g :: g in few ==> g in many
    ensures forall s :: CoversAll(few, tenant, targets, s, required)
                        ==> CoversAll(many, tenant, targets, s, required)
    ensures forall t :: AuthorizedScopes(few, tenant, t, requested, required)
                        <= AuthorizedScopes(many, tenant, t, requested, required)
  {}

  /** An admitted namespaced request names its application. */
  lemma AdmittedNamesApplication(a: Admission, query: Option<string>)
    requires a.Valid() && a.ids == ApplicationIds(query, None, true)
    ensures Named(query) || a.scope.IsGlobal()
  {}

  ghost predicate EntitledToTag(a: Admission, t: Tag) {
    Entitled(a, Row(t.tenant, t.application, t.ns))
  }

  /** The row a match was found by: the tag itself or its alias. */
  function Found(m: Match): Row {
    match m
    case TagMatch(t) => Row(t.tenant, t.application, t.ns)
    case AliasMatch(l, _) => Row(l.tenant, l.application, l.ns)
  }

  /** The resolution endpoint as a whole: no admitted request meets the ambiguity error unless it
      sends an empty type, the row it finds is one it is entitled to, and so is the tag it is
      answered with, provided aliases reach their tags. */
  lemma AdmittedResolution(a: Admission, s: Store, slug: string, query: Option<string>,
                           kind: Option<string>, qualifier: Option<string>)
    requires a.Valid() && a.ids == ApplicationIds(query, None, true)
    requires s.Valid() && s.Unique()
    ensures var r := ResolveTagReference(s, a.tenant, slug, query, kind, a.scope, qualifier,
                                         a.IncludeGlobal());
            && (kind != Some("") ==> r != Err(Ambiguous))
            && (r.Ok? ==> Entitled(a, Found(r.value)))
            && (r.Ok? && (r.value.TagMatch? || AliasesReach(s)) ==> EntitledToTag(a, r.value.tag))
  {
    AdmittedNamesApplication(a, query);
    if kind != Some("") {
      AmbiguityNeedsEmptyType(s, a.tenant, slug, query, kind, a.scope, qualifier, a.IncludeGlobal());
    }
    match EffectiveScope(a.scope, qualifier, a.IncludeGlobal())
    case Err(_) =>
    case Ok(effective) =>
      var v := View(a.tenant, query, effective.0, effective.1);
      QualifierNarrows(a.tenant, query, a.scope, qualifier, a.IncludeGlobal());
      if ResolveIn(s, v, slug, kind).Ok? {
        MatchIsListed(a, s, v, slug, query, kind, ResolveIn(s, v, slug, kind).value);
      }
  }

  lemma MatchIsListed(a: Admission, s: Store, v: View, slug: string, query: Option<string>,
                      kind: Option<string>, m: Match)
    requires a.Valid() && a.ids == ApplicationIds(query, None, true)
    requires s.Valid() && ResolveIn(s, v, slug, kind) == Ok(m)
    requires Narrows(v, View(a.tenant, query, a.scope, a.IncludeGlobal()))
    ensures Entitled(a, Found(m))
    ensures m.TagMatch? || AliasesReach(s) ==> EntitledToTag(a, m.tag)
  {
    if m.TagMatch? {
      ResolvesToBestTag(s, v, slug, kind, m.tag);
    } else {
      ResolvesToBestAlias(s, v, slug, kind, Hit(m.alias, m.tag));
      if AliasesReach(s) {
        AdmittedNamesApplication(a, query);
        assert Sees(v, m.tag.tenant, None, m.tag.ns);
        SeenIsListed(a, query, Row(m.tag.tenant, m.tag.application, m.tag.ns));
      }
    }
    SeenIsListed(a, query, Found(m));
  }

  lemma SeenIsListed(a: Admission, query: Option<string>, row: Row)
    requires a.Valid() && a.ids == ApplicationIds(query, None, true)
    requires Sees(View(a.tenant, query, a.scope, a.IncludeGlobal()), row.tenant, row.application, row.ns)
    ensures Entitled(a, row)
  {}

  /** The order a request is admitted in: scope resolution, then the permission check. What it
      leaves is what the read endpoints above start from. */
  method Admit(request: Request, table: seq<Grant>, authentication: Option<nat>,
               declared: Option<string>, v2: bool, kind: Option<string>, id: Option<string>,
               includeGlobal: Option<string>, onResolution: bool, pin: Option<string>,
               v2Enabled: bool, writeEnabled: bool)
    returns (a: Option<Admission>)
    requires request.Cached(table)
    modifies request
    ensures a.Some? <==>
              && ServesHeaders(v2, kind, id, v2Enabled)
              && authentication.Some? && Named(request.tenant) && Named(declared)
              && NamedCovered(TenantGrants(table, authentication.value, request.tenant.value),
                              request.tenant.value, request.queryApplication, request.bodyApplication,
                              request.safe, Namespace(kind, id), declared.value)
              && (request.safe || kind.None? || writeEnabled)
    ensures a.Some? ==> a.value.Valid()
    ensures a.Some? ==>
              && a.value.scope == Namespace(kind, id) && Some(a.value.tenant) == request.tenant
              && a.value.grants == TenantGrants(table, authentication.value, a.value.tenant)
              && Some(a.value.required) == declared
              && a.value.ids == ApplicationIds(request.queryApplication, request.bodyApplication, request.safe)
    ensures a.Some? ==> forall s :: s in a.value.requested <==>
              || s == Namespace(kind, id)
              || (s == GLOBAL && v2 && includeGlobal.Some? && Lowered(includeGlobal.value) == "true")
              || (s == GLOBAL && v2 && onResolution && pin == Some("global"))
  {
    var resolved := request.ResolveScopeContext(v2, kind, id, includeGlobal, onResolution, pin, v2Enabled);
    if resolved.Err? { return None; }
    var permitted := request.HasPermission(table, authentication, declared, writeEnabled);
    if permitted.Err? { return None; }
    var grants := TenantGrants(table, authentication.value, request.tenant.value);
    TargetsAsNamed(grants, request.tenant.value, request.queryApplication, request.bodyApplication,
                   request.safe, declared.value);
    a := Some(Admission(grants, request.tenant.value, request.scope, request.requested,
                        request.Ids(), declared.value, request.authorized.value));
  }
}
