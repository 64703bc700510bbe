/** Slug resolution: the queries over active tags and aliases, the specificity ladder, and the
    single resolver. */
module Resolution {
  import opened Scopes
  import opened Ordering

  datatype Tag = Tag(
    id: nat, tenant: string, application: Option<string>, ns: Namespace,
    kind: string, slug: string, name: string, active: bool)

  datatype Alias = Alias(
    id: nat, tenant: string, application: Option<string>, ns: Namespace,
    tag: nat, slug: string, name: string, active: bool)

  /** An alias together with the tag it points at. */
  datatype Hit = Hit(alias: Alias, tag: Tag)

  datatype Store = Store(tags: map<nat, Tag>, aliases: map<nat, Alias>) {
    /** Primary and foreign keys, and the namespace check constraint. */
    ghost predicate Valid() {
      && (forall id :: id in tags ==>
            tags[id].id == id && NamespaceScopeCheck(tags[id].application, tags[id].ns))
      && (forall id :: id in aliases ==>
            && aliases[id].id == id && aliases[id].tag in tags
            && NamespaceScopeCheck(aliases[id].application, aliases[id].ns))
    }

    /** The active-only partial unique constraints on tags and on aliases. */
    ghost predicate Unique() {
      && (forall i, j :: i in tags && j in tags && i != j
                         && tags[i].active && tags[j].active
                         && tags[i].tenant == tags[j].tenant && tags[i].slug == tags[j].slug
                         && tags[i].kind == tags[j].kind ==>
            !SameScopeColumns(tags[i].application, tags[i].ns, tags[j].application, tags[j].ns))
      && (forall i, j :: i in aliases && j in aliases && i != j
                         && aliases[i].active && aliases[j].active
                         && aliases[i].tenant == aliases[j].tenant
                         && aliases[i].slug == aliases[j].slug ==>
            !SameScopeColumns(aliases[i].application, aliases[i].ns,
                              aliases[j].application, aliases[j].ns))
    }
  }

  // ----- The queries

  /** The request as the queries see it. */
  datatype View = View(tenant: string, application: Option<string>, scope: Namespace,
                       includeGlobal: bool)

  /** The application part of a resolution query. */
  predicate InApplication(v: View, application: Option<string>, ns: Namespace) {
    if Named(v.application) then application == v.application || application.None?
    else if v.scope.IsGlobal() then application.None?
    else ns == v.scope || application.None?
  }

  predicate Sees(v: View, tenant: string, application: Option<string>, ns: Namespace) {
    && tenant == v.tenant
    && MatchesScope(ns, v.scope, v.includeGlobal)
    && InApplication(v, application, ns)
  }

  /** The annotated resolution priority; a global query without an application has none. */
  function Priority(v: View, application: Option<string>, ns: Namespace): Option<nat> {
    if Named(v.application) then
      if v.scope.IsGlobal() then Some(if application == v.application then 0 else 1)
      else if application == v.application && ns == v.scope then Some(0)
      else if application == v.application && ns == GLOBAL then Some(1)
      else Some(2)
    else if v.scope.IsGlobal() then None
    else Some(if ns == v.scope then 0 else 1)
  }

  function Rung(v: View, application: Option<string>, ns: Namespace): nat {
    var p := Priority(v, application, ns);
    if p.Some? then p.value else 0
  }

  /** A truthy type parameter filters; a missing or empty one does not. */
  predicate TagMatches(v: View, slug: string, kind: Option<string>, t: Tag) {
    && t.active && t.slug == slug
    && Sees(v, t.tenant, t.application, t.ns)
    && (Named(kind) ==> t.kind == kind.value)
  }

  ghost predicate AliasMatches(s: Store, v: View, slug: string, a: Alias) {
    && a.active && a.slug == slug
    && Sees(v, a.tenant, a.application, a.ns)
    && a.tag in s.tags && s.tags[a.tag].active
    && MatchesScope(s.tags[a.tag].ns, v.scope, v.includeGlobal)
  }

  function TagKey(v: View, t: Tag): Key {
    Key("", Rung(v, t.application, t.ns), t.kind, t.name, t.id)
  }

  function AliasKey(v: View, a: Alias): Key {
    Key("", Rung(v, a.application, a.ns), "", a.name, a.id)
  }

  ghost function TagKeys(s: Store, v: View, slug: string, kind: Option<string>): set<Key> {
    set id | id in s.tags && TagMatches(v, slug, kind, s.tags[id]) :: TagKey(v, s.tags[id])
  }

  ghost function AliasKeys(s: Store, v: View, slug: string): set<Key> {
    set id | id in s.aliases && AliasMatches(s, v, slug, s.aliases[id]) ::
      AliasKey(v, s.aliases[id])
  }

  lemma TagKeyOf(s: Store, v: View, slug: string, kind: Option<string>, k: Key)
    requires s.Valid() && k in TagKeys(s, v, slug, kind)
    ensures k.id in s.tags && TagMatches(v, slug, kind, s.tags[k.id])
    ensures k == TagKey(v, s.tags[k.id])
  {}

  lemma AliasKeyOf(s: Store, v: View, slug: string, k: Key)
    requires s.Valid() && k in AliasKeys(s, v, slug)
    ensures k.id in s.aliases && AliasMatches(s, v, slug, s.aliases[k.id])
    ensures k == AliasKey(v, s.aliases[k.id])
  {}

  /** The matching tags in query order. */
  ghost function TagRows(s: Store, v: View, slug: string, kind: Option<string>): seq<Tag>
    requires s.Valid()
  {
    var keys := Ordered(TagKeys(s, v, slug, kind));
    seq(|keys|, i requires 0 <= i < |keys| =>
      TagKeyOf(s, v, slug, kind, keys[i]);
      s.tags[keys[i].id])
  }

  /** The matching aliases with their tags, in query order. */
  ghost function AliasRows(s: Store, v: View, slug: string): seq<Hit>
    requires s.Valid()
  {
    var keys := Ordered(AliasKeys(s, v, slug));
    seq(|keys|, i requires 0 <= i < |keys| =>
      AliasKeyOf(s, v, slug, keys[i]);
      Hit(s.aliases[keys[i].id], s.tags[s.aliases[keys[i].id].tag]))
  }

  ghost predicate IsTagMatch(s: Store, v: View, slug: string, kind: Option<string>, t: Tag) {
    t.id in s.tags && s.tags[t.id] == t && TagMatches(v, slug, kind, t)
  }

  ghost predicate IsAliasMatch(s: Store, v: View, slug: string, h: Hit) {
    && h.alias.id in s.aliases && s.aliases[h.alias.id] == h.alias
    && AliasMatches(s, v, slug, h.alias) && h.tag == s.tags[h.alias.tag]
  }

  lemma TagRowsAre(s: Store, v: View, slug: string, kind: Option<string>)
    requires s.Valid()
    ensures forall t :: t in TagRows(s, v, slug, kind) <==> IsTagMatch(s, v, slug, kind, t)
    ensures var rows := TagRows(s, v, slug, kind);
            forall i, j :: 0 <= i < j < |rows| ==> Less(TagKey(v, rows[i]), TagKey(v, rows[j]))
  {
    var rows, keys := TagRows(s, v, slug, kind), Ordered(TagKeys(s, v, slug, kind));
    forall i | 0 <= i < |keys|
      ensures TagKey(v, rows[i]) == keys[i] && IsTagMatch(s, v, slug, kind, rows[i])
    {
      TagKeyOf(s, v, slug, kind, keys[i]);
    }
    forall t | IsTagMatch(s, v, slug, kind, t) ensures t in rows {
      assert TagKey(v, s.tags[t.id]) in TagKeys(s, v, slug, kind);
      var i :| 0 <= i < |keys| && keys[i] == TagKey(v, t);
      assert rows[i] == t;
    }
  }

  lemma AliasRowsAre(s: Store, v: View, slug: string)
    requires s.Valid()
    ensures forall h :: h in AliasRows(s, v, slug) <==> IsAliasMatch(s, v, slug, h)
    ensures var rows := AliasRows(s, v, slug);
            forall i, j :: 0 <= i < j < |rows| ==>
              Less(AliasKey(v, rows[i].alias), AliasKey(v, rows[j].alias))
  {
    var rows, keys := AliasRows(s, v, slug), Ordered(AliasKeys(s, v, slug));
    forall i | 0 <= i < |keys|
      ensures AliasKey(v, rows[i].alias) == keys[i] && IsAliasMatch(s, v, slug, rows[i])
    {
      AliasKeyOf(s, v, slug, keys[i]);
    }
    forall h | IsAliasMatch(s, v, slug, h) ensures h in rows {
      assert AliasKey(v, s.aliases[h.alias.id]) in AliasKeys(s, v, slug);
      var i :| 0 <= i < |keys| && keys[i] == AliasKey(v, h.alias);
      assert rows[i] == h;
    }
  }

  // ----- The resolver

  datatype ResolveError = NoMatch | ProvideType | Ambiguous | NeedsNamespace | BadQualifier

  datatype Match = TagMatch(tag: Tag) | AliasMatch(alias: Alias, tag: Tag)

  /** The scope a request resolves in, after its `scope` qualifier. A pin to global rows is
      refused, as if nothing matched, to a request not authorized for them. */
  function EffectiveScope(scope: Namespace, qualifier: Option<string>, authorizedGlobal: bool)
    : Result<(Namespace, bool), ResolveError>
  {
    match qualifier
    case None => Ok((scope, authorizedGlobal))
    case Some(q) =>
      if q == "global" then
        if authorizedGlobal then Ok((GLOBAL, false)) else Err(NoMatch)
      else if q == "merchant" then
        if scope.IsGlobal() then Err(NeedsNamespace) else Ok((scope, false))
      else Err(BadQualifier)
  }

  predicate NoRepeats<T(==)>(rows: seq<T>) {
    forall i, j :: 0 <= i < j < |rows| ==> rows[i] != rows[j]
  }

  function TagPriority(v: View, t: Tag): Option<nat> {
    Priority(v, t.application, t.ns)
  }

  function HitPriority(v: View, h: Hit): Option<nat> {
    Priority(v, h.alias.application, h.alias.ns)
  }

  /** The rows that share the first row's priority; all of them when there is no priority. */
  function MostSpecificTags(v: View, rows: seq<Tag>): (top: seq<Tag>)
    requires rows != []
    ensures rows[0] in top && (NoRepeats(rows) ==> NoRepeats(top))
  {
    var first := TagPriority(v, rows[0]);
    if first.None? then rows else TagsAt(v, rows, first)
  }

  function TagsAt(v: View, rows: seq<Tag>, priority: Option<nat>): (top: seq<Tag>)
    ensures forall t :: t in top <==> t in rows && TagPriority(v, t) == priority
    ensures NoRepeats(rows) ==> NoRepeats(top)
  {
    if rows == [] then []
    else if TagPriority(v, rows[0]) == priority then [rows[0]] + TagsAt(v, rows[1..], priority)
    else TagsAt(v, rows[1..], priority)
  }

  function MostSpecificHits(v: View, rows: seq<Hit>): (top: seq<Hit>)
    requires rows != []
    ensures rows[0] in top && (NoRepeats(rows) ==> NoRepeats(top))
  {
    var first := HitPriority(v, rows[0]);
    if first.None? then rows else HitsAt(v, rows, first)
  }

  function HitsAt(v: View, rows: seq<Hit>, priority: Option<nat>): (top: seq<Hit>)
    ensures forall h :: h in top <==> h in rows && HitPriority(v, h) == priority
    ensures NoRepeats(rows) ==> NoRepeats(top)
  {
    if rows == [] then []
    else if HitPriority(v, rows[0]) == priority then [rows[0]] + HitsAt(v, rows[1..], priority)
    else HitsAt(v, rows[1..], priority)
  }

  function InNamedApplication(v: View, rows: seq<Tag>): (own: seq<Tag>)
    ensures forall t :: t in own <==> t in rows && t.application == v.application
    ensures NoRepeats(rows) ==> NoRepeats(own)
  {
    if rows == [] then []
    else if rows[0].application == v.application
      then [rows[0]] + InNamedApplication(v, rows[1..])
    else InNamedApplication(v, rows[1..])
  }

  /** The tags a resolution chooses among: the named application's own tags if it has any, then
      the most specific of those. */
  function TagCandidates(v: View, rows: seq<Tag>): (top: seq<Tag>)
    requires rows != []
    ensures top != [] && (NoRepeats(rows) ==> NoRepeats(top))
  {
    var own := InNamedApplication(v, rows);
    MostSpecificTags(v, if Named(v.application) && own != [] then own else rows)
  }

  /** Which error reports a tie: a missing type parameter can settle a tie between types. */
  ghost function TieError(kind: Option<string>, tied: seq<Tag>): ResolveError {
    if kind.None? && exists t, u :: t in tied && u in tied && t.kind != u.kind then ProvideType
    else Ambiguous
  }

  ghost function ResolveIn(s: Store, v: View, slug: string, kind: Option<string>)
    : Result<Match, ResolveError>
    requires s.Valid()
  {
    var tags := TagRows(s, v, slug, kind);
    if tags != [] then
      var candidates := TagCandidates(v, tags);
      if |candidates| > 1 then Err(TieError(kind, candidates)) else Ok(TagMatch(candidates[0]))
    else
      var hits := AliasRows(s, v, slug);
      if hits == [] then Err(NoMatch)
      else
        var top := MostSpecificHits(v, hits);
        if |top| > 1 then Err(Ambiguous) else Ok(AliasMatch(top[0].alias, top[0].tag))
  }

  ghost function ResolveTagReference(
    s: Store, tenant: string, slug: string, application: Option<string>, kind: Option<string>,
    scope: Namespace, qualifier: Option<string>, authorizedGlobal: bool)
    : Result<Match, ResolveError>
    requires s.Valid()
  {
    match EffectiveScope(scope, qualifier, authorizedGlobal)
    case Err(e) => Err(e)
    case Ok(effective) =>
      ResolveIn(s, View(tenant, application, effective.0, effective.1), slug, kind)
  }
}
