/** The taxonomy's invariants are what slug resolution assumes of the store. */
module TaxonomyResolution {
  import opened Scopes
  import opened Taxonomy
  import opened TaxonomyInvariants
  import opened TaxonomyScopes
  import A = Assignments
  import B = BulkAliases
  import G = Grants
  import R = Resolution
  import RT = ResolutionTheorems
  import V = Visibility

  function Plain(v: Value): string {
    if v.Text? then v.text else ""
  }

  function TagOf(id: nat, row: Row): R.Tag {
    R.Tag(id, Plain(Get(row, Tenant)), App(row), Ns(row), Plain(Get(row, Type)),
          Plain(Get(row, Slug)), Plain(Get(row, Name)), IsActive(row))
  }

  function AliasOf(id: nat, row: Row): R.Alias {
    R.Alias(id, Plain(Get(row, Tenant)), App(row), Ns(row),
            if Get(row, Canonical).Ref? then Get(row, Canonical).id else 0,
            Plain(Get(row, Slug)), Plain(Get(row, Name)), IsActive(row))
  }

  /** The columns the resolution queries read. */
  function StoreOf(rows: map<Key, Row>): R.Store {
    R.Store(map k | k in rows && k.kind == TagKind :: k.id := TagOf(k.id, rows[k]),
            map k | k in rows && k.kind == AliasKind :: k.id := AliasOf(k.id, rows[k]))
  }

  lemma StoreRows(rows: map<Key, Row>)
    ensures forall id :: id in StoreOf(rows).tags <==> Key(TagKind, id) in rows
    ensures forall id :: id in StoreOf(rows).tags ==>
              StoreOf(rows).tags[id] == TagOf(id, rows[Key(TagKind, id)])
    ensures forall id :: id in StoreOf(rows).aliases <==> Key(AliasKind, id) in rows
    ensures forall id :: id in StoreOf(rows).aliases ==>
              StoreOf(rows).aliases[id] == AliasOf(id, rows[Key(AliasKind, id)])
  {}

  lemma RowIsChecked(rows: map<Key, Row>, k: Key)
    requires Inv(rows) && k in rows
    ensures NamespaceScopeCheck(App(rows[k]), Ns(rows[k]))
  {
    assert SoundRow(k, rows[k]);
  }

  lemma TagIsValid(rows: map<Key, Row>, id: nat)
    requires Inv(rows) && id in StoreOf(rows).tags
    ensures var t := StoreOf(rows).tags[id]; t.id == id && NamespaceScopeCheck(t.application, t.ns)
  {
    StoreRows(rows);
    RowIsChecked(rows, Key(TagKind, id));
  }

  lemma AliasIsValid(rows: map<Key, Row>, id: nat)
    requires Inv(rows) && id in StoreOf(rows).aliases
    ensures var l := StoreOf(rows).aliases[id];
            l.id == id && l.tag in StoreOf(rows).tags && NamespaceScopeCheck(l.application, l.ns)
  {
    StoreRows(rows);
    RowIsChecked(rows, Key(AliasKind, id));
    AliasHasTag(rows, id);
  }

  lemma TagsAreValid(rows: map<Key, Row>)
    requires Inv(rows)
    ensures var tags := StoreOf(rows).tags;
            forall id :: id in tags ==> tags[id].id == id && NamespaceScopeCheck(tags[id].application, tags[id].ns)
  {
    var tags := StoreOf(rows).tags;
    forall id | id in tags
      ensures tags[id].id == id && NamespaceScopeCheck(tags[id].application, tags[id].ns)
    {
      TagIsValid(rows, id);
    }
  }

  lemma StoreIsValid(rows: map<Key, Row>)
    requires Inv(rows)
    ensures StoreOf(rows).Valid()
  {
    TagsAreValid(rows);
    var tags, aliases := StoreOf(rows).tags, StoreOf(rows).aliases;
    forall id | id in aliases
      ensures aliases[id].id == id && aliases[id].tag in tags
      ensures NamespaceScopeCheck(aliases[id].application, aliases[id].ns)
    {
      AliasIsValid(rows, id);
    }
  }

  lemma AliasNamesTag(row: Row)
    requires IsRow(AliasKind, row)
    ensures Get(row, Canonical).Ref?
  {}

  lemma AliasHasTag(rows: map<Key, Row>, id: nat)
    requires AllSound(rows) && AllRefer(rows) && Key(AliasKind, id) in rows
    ensures Key(TagKind, AliasOf(id, rows[Key(AliasKind, id)]).tag) in rows
  {
    var row := rows[Key(AliasKind, id)];
    assert SoundRow(Key(AliasKind, id), row);
    AliasNamesTag(row);
    assert RefersOnlyTo(rows, row) && Canonical in REFERENCES;
  }

  /** Two active rows of a kind never share a slot. */
  lemma SlotsAreUnique(rows: map<Key, Row>, kind: Kind, i: nat, j: nat)
    requires Inv(rows) && Key(kind, i) in rows && Key(kind, j) in rows && i != j
    requires IsActive(rows[Key(kind, i)]) && IsActive(rows[Key(kind, j)])
    ensures !SameSlot(kind, rows[Key(kind, i)], rows[Key(kind, j)])
  {
    assert Unclaimed(rows, Key(kind, i), rows[Key(kind, i)]);
  }

  lemma PlainIsExact(rows: map<Key, Row>, kind: Kind, i: nat, j: nat, f: Field)
    requires AllSound(rows) && Key(kind, i) in rows && Key(kind, j) in rows
    requires f in {Tenant, Slug} || (f == Type && kind == TagKind)
    requires Plain(Get(rows[Key(kind, i)], f)) == Plain(Get(rows[Key(kind, j)], f))
    ensures Get(rows[Key(kind, i)], f) == Get(rows[Key(kind, j)], f)
  {
    assert SoundRow(Key(kind, i), rows[Key(kind, i)]) && SoundRow(Key(kind, j), rows[Key(kind, j)]);
    assert f in Columns(kind);
  }

  lemma TagsAreUnique(rows: map<Key, Row>, i: nat, j: nat)
    requires Inv(rows) && i in StoreOf(rows).tags && j in StoreOf(rows).tags && i != j
    ensures var t, u := StoreOf(rows).tags[i], StoreOf(rows).tags[j];
            t.active && u.active && t.tenant == u.tenant && t.slug == u.slug && t.kind == u.kind
            ==> !SameScopeColumns(t.application, t.ns, u.application, u.ns)
  {
    StoreRows(rows);
    var t, u := StoreOf(rows).tags[i], StoreOf(rows).tags[j];
    if t.active && u.active && t.tenant == u.tenant && t.slug == u.slug && t.kind == u.kind {
      SlotsAreUnique(rows, TagKind, i, j);
      PlainIsExact(rows, TagKind, i, j, Tenant);
      PlainIsExact(rows, TagKind, i, j, Slug);
      PlainIsExact(rows, TagKind, i, j, Type);
    }
  }

  lemma AliasesAreUnique(rows: map<Key, Row>, i: nat, j: nat)
    requires Inv(rows) && i in StoreOf(rows).aliases && j in StoreOf(rows).aliases && i != j
    ensures var a, b := StoreOf(rows).aliases[i], StoreOf(rows).aliases[j];
            a.active && b.active && a.tenant == b.tenant && a.slug == b.slug
            ==> !SameScopeColumns(a.application, a.ns, b.application, b.ns)
  {
    StoreRows(rows);
    var a, b := StoreOf(rows).aliases[i], StoreOf(rows).aliases[j];
    if a.active && b.active && a.tenant == b.tenant && a.slug == b.slug {
      SlotsAreUnique(rows, AliasKind, i, j);
      PlainIsExact(rows, AliasKind, i, j, Tenant);
      PlainIsExact(rows, AliasKind, i, j, Slug);
    }
  }

  lemma StoreIsUnique(rows: map<Key, Row>)
    requires Inv(rows)
    ensures StoreOf(rows).Unique()
  {
    var tags, aliases := StoreOf(rows).tags, StoreOf(rows).aliases;
    forall i, j | i in tags && j in tags && i != j
      ensures var t, u := tags[i], tags[j];
              t.active && u.active && t.tenant == u.tenant && t.slug == u.slug && t.kind == u.kind
              ==> !SameScopeColumns(t.application, t.ns, u.application, u.ns)
    {
      TagsAreUnique(rows, i, j);
    }
    forall i, j | i in aliases && j in aliases && i != j
      ensures var a, b := aliases[i], aliases[j];
              a.active && b.active && a.tenant == b.tenant && a.slug == b.slug
              ==> !SameScopeColumns(a.application, a.ns, b.application, b.ns)
    {
      AliasesAreUnique(rows, i, j);
    }
  }

  /** After any run of service calls, a request that names an application or resolves globally never
      meets the ambiguity error unless it sends an empty type. */
  lemma ServedStoresResolve(
    steps: seq<Step>, tenant: string, slug: string, application: Option<string>, kind: Option<string>,
    scope: Namespace, qualifier: Option<string>, authorizedGlobal: bool)
    requires CallableRun(EMPTY, steps)
    requires (Named(application) || scope.IsGlobal()) && kind != Some("")
    ensures var s := StoreOf(Run(EMPTY, steps).rows);
            && s.Valid() && s.Unique()
            && R.ResolveTagReference(s, tenant, slug, application, kind, scope, qualifier,
                                     authorizedGlobal) != Err(R.Ambiguous)
  {
    RunKeepsInv(steps);
    var rows := Run(EMPTY, steps).rows;
    StoreIsValid(rows);
    StoreIsUnique(rows);
    RT.AmbiguityNeedsEmptyType(StoreOf(rows), tenant, slug, application, kind, scope, qualifier,
                               authorizedGlobal);
  }

  lemma AliasReachesTag(rows: map<Key, Row>, id: nat)
    requires Inv(rows) && Closed(rows) && Key(AliasKind, id) in rows
    ensures var l := AliasOf(id, rows[Key(AliasKind, id)]);
            && Key(TagKind, l.tag) in rows
            && (var t := TagOf(l.tag, rows[Key(TagKind, l.tag)]);
                t.tenant == l.tenant && ApplicationReaches(l.application, t.application))
  {
    var row := rows[Key(AliasKind, id)];
    assert SoundRow(Key(AliasKind, id), row) && RowCloses(rows, row);
    AliasNamesTag(row);
    assert Canonical in REFERENCES;
  }

  lemma ClosedStoreReaches(rows: map<Key, Row>)
    requires Inv(rows) && Closed(rows)
    ensures RT.AliasesReach(StoreOf(rows))
  {
    StoreRows(rows);
    forall id | Key(AliasKind, id) in rows
      ensures var l := AliasOf(id, rows[Key(AliasKind, id)]);
              && Key(TagKind, l.tag) in rows
              && (var t := TagOf(l.tag, rows[Key(TagKind, l.tag)]);
                  t.tenant == l.tenant && ApplicationReaches(l.application, t.application))
    {
      AliasReachesTag(rows, id);
    }
  }

  /** In every state reachable without editing a tenant, an admitted request that resolves a slug,
      by a tag or by an alias, is answered with a tag it is entitled to, found by a row it is
      entitled to, and meets no ambiguity unless it sends an empty type. */
  lemma ServedRequestsAreEntitled(steps: seq<Step>, a: V.Admission, slug: string, query: Option<string>,
                                  kind: Option<string>, qualifier: Option<string>)
    requires EditsNoTenant(steps) && a.Valid() && a.ids == G.ApplicationIds(query, None, true)
    ensures var s := StoreOf(Run(EMPTY, steps).rows);
            && s.Valid()
            && var r := R.ResolveTagReference(s, a.tenant, slug, query, kind, a.scope, qualifier,
                                              a.IncludeGlobal());
            && (r.Ok? ==> V.Entitled(a, V.Found(r.value)) && V.EntitledToTag(a, r.value.tag))
            && (kind != Some("") ==> r != Err(R.Ambiguous))
  {
    RunStaysClosed(steps);
    var rows := Run(EMPTY, steps).rows;
    StoreIsValid(rows);
    StoreIsUnique(rows);
    ClosedStoreReaches(rows);
    V.AdmittedResolution(a, StoreOf(rows), slug, query, kind, qualifier);
  }

  lemma FoundAliasIsMatch(s: R.Store, v: R.View, wanted: B.Reference)
    requires s.Valid() && Named(v.application) && B.ResolveAssignable(s, v, wanted).Ok?
    ensures exists h: R.Hit ::
              R.IsAliasMatch(s, v, h.alias.slug, h) && B.ResolveAssignable(s, v, wanted) == Ok(h.tag)
  {
    match wanted
    case ById(id) =>
      B.ByIdIsMatch(s, v, s.aliases[id].slug, id);
      assert R.IsAliasMatch(s, v, s.aliases[id].slug, R.Hit(s.aliases[id], s.tags[s.aliases[id].tag]));
    case BySlug(slug) =>
      B.FirstHitIs(s, v, slug);
      assert R.IsAliasMatch(s, v, slug, B.FirstHit(s, v, slug).value);
  }

  /** In every state reachable without editing a tenant, a tag that an alias, named by id or by slug,
      is resolved to for an assignment is one the resource may be assigned: an alias never carries a
      caller to a tag of another application, tenant or namespace. */
  lemma AliasTagsAreAssignable(steps: seq<Step>, wanted: B.Reference, place: A.Place, includeGlobal: bool)
    requires EditsNoTenant(steps) && place.application != ""
    ensures var s := StoreOf(Run(EMPTY, steps).rows);
            && s.Valid()
            && var found := B.ResolveAssignable(
                 s, R.View(place.tenant, Some(place.application), place.ns, includeGlobal), wanted);
            found.Ok? ==>
              A.Assignable(s.tags, place, includeGlobal, found.value.id) && s.tags[found.value.id] == found.value
  {
    RunStaysClosed(steps);
    var rows := Run(EMPTY, steps).rows;
    var s, v := StoreOf(rows), R.View(place.tenant, Some(place.application), place.ns, includeGlobal);
    StoreIsValid(rows);
    ClosedStoreReaches(rows);
    if B.ResolveAssignable(s, v, wanted).Ok? {
      FoundAliasIsMatch(s, v, wanted);
      var h: R.Hit :|
        R.IsAliasMatch(s, v, h.alias.slug, h) && B.ResolveAssignable(s, v, wanted) == Ok(h.tag);
      MatchIsAssignable(s, h, place, includeGlobal);
    }
  }

  lemma MatchIsAssignable(s: R.Store, h: R.Hit, place: A.Place, includeGlobal: bool)
    requires s.Valid() && RT.AliasesReach(s) && place.application != ""
    requires R.IsAliasMatch(s, R.View(place.tenant, Some(place.application), place.ns, includeGlobal),
                            h.alias.slug, h)
    ensures A.Assignable(s.tags, place, includeGlobal, h.tag.id) && s.tags[h.tag.id] == h.tag
  {
    A.AssignableIs(s.tags, place, includeGlobal, h.tag.id);
  }
}
