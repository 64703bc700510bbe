/** Resolving many alias slugs with one query, and the single resolution it stands in for. */
module BulkAliases {
  import opened Scopes
  import opened Ordering
  import opened Resolution
  import opened ResolutionTheorems

  // ----- The single resolution of an assignment request

  datatype Reference = ById(id: nat) | BySlug(slug: string)

  datatype AssignableError = AliasNotFound | InactiveAlias | InactiveTag | OtherApplication

  /** The first row of the single-slug query. */
  ghost function FirstHit(s: Store, v: View, slug: string): Option<Hit>
    requires s.Valid()
  {
    var rows := AliasRows(s, v, slug);
    if rows == [] then None else Some(rows[0])
  }

  ghost function FindAlias(s: Store, v: View, wanted: Reference): Option<Hit>
    requires s.Valid()
  {
    match wanted
    case BySlug(slug) => FirstHit(s, v, slug)
    case ById(id) =>
      if id !in s.aliases || s.aliases[id].tenant != v.tenant then None
      else
        var alias := s.aliases[id];
        var tag := s.tags[alias.tag];
        if !MatchesScope(alias.ns, v.scope, v.includeGlobal)
           || !MatchesScope(tag.ns, v.scope, v.includeGlobal)
        then None else Some(Hit(alias, tag))
  }

  ghost function ResolveAssignable(s: Store, v: View, wanted: Reference): Result<Tag, AssignableError>
    requires s.Valid()
  {
    var found := FindAlias(s, v, wanted);
    if found.None? then Err(AliasNotFound)
    else if !found.value.alias.active then Err(InactiveAlias)
    else if !found.value.tag.active then Err(InactiveTag)
    else if found.value.alias.application.Some? && found.value.alias.application != v.application
      then Err(OtherApplication)
    else Ok(found.value.tag)
  }

  /** Looking an alias up by id succeeds exactly for an active alias of the tenant with an active
      tag, both in a visible namespace, the alias shared or the caller application's. */
  lemma ResolvableById(s: Store, v: View, id: nat, tag: Tag)
    requires s.Valid()
    ensures ResolveAssignable(s, v, ById(id)) == Ok(tag) <==>
              && id in s.aliases && s.aliases[id].tenant == v.tenant
              && s.aliases[id].active && tag == s.tags[s.aliases[id].tag] && tag.active
              && MatchesScope(s.aliases[id].ns, v.scope, v.includeGlobal)
              && MatchesScope(tag.ns, v.scope, v.includeGlobal)
              && ApplicationReaches(v.application, s.aliases[id].application)
  {}

  /** Which error each other alias gives: one out of sight is not found, whatever else is wrong with it. */
  lemma IdRefusals(s: Store, v: View, id: nat)
    requires s.Valid()
    ensures var r := ResolveAssignable(s, v, ById(id));
            if id !in s.aliases || s.aliases[id].tenant != v.tenant then r == Err(AliasNotFound)
            else
              var alias, tag := s.aliases[id], s.tags[s.aliases[id].tag];
              var seen := && MatchesScope(alias.ns, v.scope, v.includeGlobal)
                          && MatchesScope(tag.ns, v.scope, v.includeGlobal);
              && (r == Err(AliasNotFound) <==> !seen)
              && (r == Err(InactiveAlias) <==> seen && !alias.active)
              && (r == Err(InactiveTag) <==> seen && alias.active && !tag.active)
              && (r == Err(OtherApplication)
                  <==> seen && alias.active && tag.active && alias.application !in {None, v.application})
  {}

  lemma FirstHitIs(s: Store, v: View, slug: string)
    requires s.Valid()
    ensures FirstHit(s, v, slug).Some? <==> HasHit(s, v, slug)
    ensures FirstHit(s, v, slug).Some? ==> TopHit(s, v, slug, FirstHit(s, v, slug).value)
  {
    HasHitRows(s, v, slug);
    if AliasRows(s, v, slug) != [] {
      HitsAreTop(s, v, slug);
    }
  }

  /** A slug hit has already passed the checks that follow it: looking an alias up by slug can only
      fail by finding nothing. */
  lemma SlugChecksNeverFire(s: Store, v: View, slug: string)
    requires s.Valid() && Named(v.application)
    ensures ResolveAssignable(s, v, BySlug(slug))
         == match FirstHit(s, v, slug) { case None => Err(AliasNotFound) case Some(h) => Ok(h.tag) }
  {}

  /** With the unique constraints in force, the first row is the unique most specific alias. */
  lemma FirstHitIsBest(s: Store, v: View, slug: string, h: Hit)
    requires s.Valid() && s.Unique() && Named(v.application)
    ensures FirstHit(s, v, slug) == Some(h) <==> BestHit(s, v, slug, h)
  {
    FirstHitIs(s, v, slug);
    forall g | TopHit(s, v, slug, g) ensures BestHit(s, v, slug, g) {
      forall other | IsAliasMatch(s, v, slug, other) && other != g
        ensures HitRung(v, g) < HitRung(v, other)
      {
        if HitRung(v, other) == HitRung(v, g) { OneTopHit(s, v, slug, g, other); }
      }
    }
  }

  /** Among the aliases of a slug that could be assigned by id, this one is more specific than every
      other. */
  ghost predicate BestById(s: Store, v: View, slug: string, id: nat, tag: Tag)
    requires s.Valid()
  {
    && id in s.aliases && s.aliases[id].slug == slug && ResolveAssignable(s, v, ById(id)) == Ok(tag)
    && forall other :: other in s.aliases && s.aliases[other].slug == slug && other != id
                       && ResolveAssignable(s, v, ById(other)).Ok? ==>
         MoreSpecific(v, s.aliases[id].application, s.aliases[id].ns,
                      s.aliases[other].application, s.aliases[other].ns)
  }

  /** What can be assigned by id is what the slug query matches. */
  lemma ByIdIsMatch(s: Store, v: View, slug: string, id: nat)
    requires s.Valid() && Named(v.application) && id in s.aliases && s.aliases[id].slug == slug
    ensures var h := Hit(s.aliases[id], s.tags[s.aliases[id].tag]);
            ResolveAssignable(s, v, ById(id)) == Ok(h.tag) <==> IsAliasMatch(s, v, slug, h)
    ensures ResolveAssignable(s, v, ById(id)).Ok? ==>
              ResolveAssignable(s, v, ById(id)) == Ok(s.tags[s.aliases[id].tag])
  {
    ResolvableById(s, v, id, s.tags[s.aliases[id].tag]);
  }

  lemma BestByIdIsMostSpecific(s: Store, v: View, slug: string, id: nat)
    requires s.Valid() && Named(v.application) && id in s.aliases
    ensures var h := Hit(s.aliases[id], s.tags[s.aliases[id].tag]);
            BestById(s, v, slug, id, h.tag) <==> MostSpecificHit(s, v, slug, h)
  {
    var h := Hit(s.aliases[id], s.tags[s.aliases[id].tag]);
    if s.aliases[id].slug == slug { ByIdIsMatch(s, v, slug, id); }
    forall other | other in s.aliases && s.aliases[other].slug == slug
      ensures var g := Hit(s.aliases[other], s.tags[s.aliases[other].tag]);
              ResolveAssignable(s, v, ById(other)).Ok? <==> IsAliasMatch(s, v, slug, g)
    {
      ByIdIsMatch(s, v, slug, other);
    }
  }

  /** The two ways to name an alias agree: a slug is assigned a tag exactly when some alias of that
      slug is assigned it by id and is more specific than every other that could be. */
  lemma SlugIsBestById(s: Store, v: View, slug: string, tag: Tag)
    requires s.Valid() && s.Unique() && Named(v.application)
    ensures ResolveAssignable(s, v, BySlug(slug)) == Ok(tag) <==> exists id :: BestById(s, v, slug, id, tag)
  {
    SlugChecksNeverFire(s, v, slug);
    if ResolveAssignable(s, v, BySlug(slug)) == Ok(tag) {
      var h := FirstHit(s, v, slug).value;
      FirstHitIsBest(s, v, slug, h);
      BestHitIsMostSpecific(s, v, slug, h);
      BestByIdIsMostSpecific(s, v, slug, h.alias.id);
      assert BestById(s, v, slug, h.alias.id, tag);
    }
    forall id | BestById(s, v, slug, id, tag)
      ensures ResolveAssignable(s, v, BySlug(slug)) == Ok(tag)
    {
      ByIdIsMatch(s, v, slug, id);
      var h := Hit(s.aliases[id], tag);
      BestByIdIsMostSpecific(s, v, slug, id);
      BestHitIsMostSpecific(s, v, slug, h);
      FirstHitIsBest(s, v, slug, h);
    }
  }

  // ----- The bulk query

  /** The slug comes first in the order, but behind the rung where no application is named and the
      request is namespaced; an alias has no type, so the slug takes its place there. */
  function BulkKey(v: View, a: Alias): Key {
    if Named(v.application) || v.scope.IsGlobal() then AliasKey(v, a).(slug := a.slug)
    else AliasKey(v, a).(kind := a.slug)
  }

  ghost predicate IsBulkMatch(s: Store, v: View, slugs: seq<string>, h: Hit) {
    h.alias.slug in slugs && IsAliasMatch(s, v, h.alias.slug, h)
  }

  ghost function BulkKeys(s: Store, v: View, slugs: seq<string>): set<Key> {
    set id | id in s.aliases && s.aliases[id].slug in slugs
             && AliasMatches(s, v, s.aliases[id].slug, s.aliases[id]) ::
      BulkKey(v, s.aliases[id])
  }

  lemma BulkKeyOf(s: Store, v: View, slugs: seq<string>, k: Key)
    requires s.Valid() && k in BulkKeys(s, v, slugs)
    ensures k.id in s.aliases && s.aliases[k.id].slug in slugs
    ensures AliasMatches(s, v, s.aliases[k.id].slug, s.aliases[k.id])
    ensures k == BulkKey(v, s.aliases[k.id])
  {}

  /** The matching aliases of all the slugs, by slug and then as the single query orders them. */
  ghost function BulkRows(s: Store, v: View, slugs: seq<string>): seq<Hit>
    requires s.Valid()
  {
    var keys := Ordered(BulkKeys(s, v, slugs));
    seq(|keys|, i requires 0 <= i < |keys| =>
      BulkKeyOf(s, v, slugs, keys[i]);
      Hit(s.aliases[keys[i].id], s.tags[s.aliases[keys[i].id].tag]))
  }

  lemma BulkRowsAre(s: Store, v: View, slugs: seq<string>)
    requires s.Valid()
    ensures forall h :: h in BulkRows(s, v, slugs) <==> IsBulkMatch(s, v, slugs, h)
    ensures var rows := BulkRows(s, v, slugs);
            forall i, j :: 0 <= i < j < |rows| ==>
              Less(BulkKey(v, rows[i].alias), BulkKey(v, rows[j].alias))
  {
    var rows, keys := BulkRows(s, v, slugs), Ordered(BulkKeys(s, v, slugs));
    forall i | 0 <= i < |keys|
      ensures BulkKey(v, rows[i].alias) == keys[i] && IsBulkMatch(s, v, slugs, rows[i])
    {
      BulkKeyOf(s, v, slugs, keys[i]);
    }
    forall h | IsBulkMatch(s, v, slugs, h) ensures h in rows {
      assert BulkKey(v, s.aliases[h.alias.id]) in BulkKeys(s, v, slugs);
      var i :| 0 <= i < |keys| && keys[i] == BulkKey(v, h.alias);
      assert rows[i] == h;
    }
  }

  ghost predicate FirstOfSlug(rows: seq<Hit>, i: nat)
    requires i < |rows|
  {
    forall j :: 0 <= j < i ==> rows[j].alias.slug != rows[i].alias.slug
  }

  lemma FirstInBulk(s: Store, v: View, slugs: seq<string>, i: nat, g: Hit)
    requires s.Valid() && i < |BulkRows(s, v, slugs)| && FirstOfSlug(BulkRows(s, v, slugs), i)
    requires IsBulkMatch(s, v, slugs, g) && g.alias.slug == BulkRows(s, v, slugs)[i].alias.slug
    ensures g == BulkRows(s, v, slugs)[i]
            || Less(AliasKey(v, BulkRows(s, v, slugs)[i].alias), AliasKey(v, g.alias))
  {
    var rows := BulkRows(s, v, slugs);
    BulkRowsAre(s, v, slugs);
    var j :| 0 <= j < |rows| && rows[j] == g;
    if j != i {
      assert Less(BulkKey(v, rows[i].alias), BulkKey(v, g.alias));
    }
  }

  lemma FirstInSingle(s: Store, v: View, slug: string, h: Hit)
    requires s.Valid() && IsAliasMatch(s, v, slug, h)
    ensures var first := FirstHit(s, v, slug);
            && first.Some? && IsAliasMatch(s, v, slug, first.value)
            && (first.value == h || Less(AliasKey(v, first.value.alias), AliasKey(v, h.alias)))
  {
    AliasRowsAre(s, v, slug);
    var single := AliasRows(s, v, slug);
    assert h in single && single[0] in single;
  }

  /** The bulk query's first row for a slug is the single query's first row. */
  lemma BulkFirstIsSingleFirst(s: Store, v: View, slugs: seq<string>, i: nat)
    requires s.Valid() && i < |BulkRows(s, v, slugs)| && FirstOfSlug(BulkRows(s, v, slugs), i)
    ensures FirstHit(s, v, BulkRows(s, v, slugs)[i].alias.slug) == Some(BulkRows(s, v, slugs)[i])
  {
    var h := BulkRows(s, v, slugs)[i];
    BulkRowsAre(s, v, slugs);
    assert IsBulkMatch(s, v, slugs, h);
    FirstInSingle(s, v, h.alias.slug, h);
    var first := FirstHit(s, v, h.alias.slug).value;
    FirstInBulk(s, v, slugs, i, first);
    LessOrder(AliasKey(v, first.alias), AliasKey(v, h.alias), AliasKey(v, first.alias));
  }

  lemma SlugInBulk(s: Store, v: View, slugs: seq<string>, slug: string)
    requires s.Valid() && slug in slugs
    ensures FirstHit(s, v, slug).Some?
            <==> exists i :: 0 <= i < |BulkRows(s, v, slugs)|
                             && BulkRows(s, v, slugs)[i].alias.slug == slug
  {
    var rows := BulkRows(s, v, slugs);
    BulkRowsAre(s, v, slugs);
    FirstHitIs(s, v, slug);
    if FirstHit(s, v, slug).Some? {
      assert IsBulkMatch(s, v, slugs, FirstHit(s, v, slug).value);
    }
    forall i | 0 <= i < |rows| && rows[i].alias.slug == slug ensures HasHit(s, v, slug) {
      assert rows[i] in rows && IsAliasMatch(s, v, slug, rows[i]);
    }
  }

  // ----- The bulk resolver

  datatype BulkError = TooMany | AliasesNotFound(slugs: seq<string>)

  /** The slugs whose single lookup finds nothing, in request order. */
  ghost function Missing(s: Store, v: View, slugs: seq<string>): seq<string>
    requires s.Valid()
  {
    if slugs == [] then []
    else
      var rest := Missing(s, v, slugs[..|slugs| - 1]);
      var last := slugs[|slugs| - 1];
      if FirstHit(s, v, last).None? then rest + [last] else rest
  }

  lemma {:induction false} MissingIsEmpty(s: Store, v: View, slugs: seq<string>)
    requires s.Valid()
    ensures Missing(s, v, slugs) == [] <==> AllHit(s, v, slugs)
    decreases |slugs|
  {
    if slugs != [] {
      var init := slugs[..|slugs| - 1];
      MissingIsEmpty(s, v, init);
      assert AllHit(s, v, slugs) <==> AllHit(s, v, init) && FirstHit(s, v, slugs[|slugs| - 1]).Some?;
    }
  }

  ghost predicate AllHit(s: Store, v: View, slugs: seq<string>)
    requires s.Valid()
  {
    forall i :: 0 <= i < |slugs| ==> FirstHit(s, v, slugs[i]).Some?
  }

  /** What the request asks for: the given ids, then the tag of each slug's single lookup. */
  ghost function SingleIds(s: Store, v: View, tagIds: seq<nat>, slugs: seq<string>): seq<nat>
    requires s.Valid() && AllHit(s, v, slugs)
  {
    if slugs == [] then tagIds
    else
      SingleIds(s, v, tagIds, slugs[..|slugs| - 1])
      + [FirstHit(s, v, slugs[|slugs| - 1]).value.tag.id]
  }

  lemma {:induction false} SingleIdsAre(s: Store, v: View, tagIds: seq<nat>, slugs: seq<string>)
    requires s.Valid() && AllHit(s, v, slugs)
    ensures var ids := SingleIds(s, v, tagIds, slugs);
            && |ids| == |tagIds| + |slugs|
            && (forall i :: 0 <= i < |tagIds| ==> ids[i] == tagIds[i])
            && (forall i :: 0 <= i < |slugs| ==>
                  ids[|tagIds| + i] == FirstHit(s, v, slugs[i]).value.tag.id)
    decreases |slugs|
  {
    if slugs != [] {
      SingleIdsAre(s, v, tagIds, slugs[..|slugs| - 1]);
    }
  }

  ghost predicate FirstFor(rows: seq<Hit>, n: nat, slug: string, tag: Tag)
    requires n <= |rows|
  {
    exists i :: 0 <= i < n && FirstOfSlug(rows, i) && rows[i].alias.slug == slug && rows[i].tag == tag
  }

  /** The map holds the first of the rows read so far for each slug among them. */
  ghost predicate Resolved(rows: seq<Hit>, n: nat, resolved: map<string, Tag>)
    requires n <= |rows|
  {
    && (forall slug :: slug in resolved ==> FirstFor(rows, n, slug, resolved[slug]))
    && (forall i :: 0 <= i < n ==> rows[i].alias.slug in resolved)
  }

  /** Fills the map with the first row of each slug. */
  method FirstPerSlug(rows: seq<Hit>) returns (resolved: map<string, Tag>)
    ensures Resolved(rows, |rows|, resolved)
  {
    resolved := map[];
    for n := 0 to |rows|
      invariant Resolved(rows, n, resolved)
    {
      ResolvedNext(rows, n, resolved);
      if rows[n].alias.slug !in resolved {
        resolved := resolved[rows[n].alias.slug := rows[n].tag];
      }
    }
  }

  lemma ResolvedNext(rows: seq<Hit>, n: nat, before: map<string, Tag>)
    requires n < |rows| && Resolved(rows, n, before)
    ensures var slug := rows[n].alias.slug;
            Resolved(rows, n + 1, if slug in before then before else before[slug := rows[n].tag])
  {}

  /** The map answers each requested slug as its single lookup does. */
  lemma ResolvedIsSingle(s: Store, v: View, slugs: seq<string>, resolved: map<string, Tag>)
    requires s.Valid() && Resolved(BulkRows(s, v, slugs), |BulkRows(s, v, slugs)|, resolved)
    ensures forall slug :: slug in slugs ==> (slug in resolved <==> FirstHit(s, v, slug).Some?)
    ensures forall slug :: slug in slugs && slug in resolved ==>
              resolved[slug] == FirstHit(s, v, slug).value.tag
  {
    var rows := BulkRows(s, v, slugs);
    forall slug | slug in slugs
      ensures slug in resolved <==> FirstHit(s, v, slug).Some?
      ensures slug in resolved ==> resolved[slug] == FirstHit(s, v, slug).value.tag
    {
      SlugInBulk(s, v, slugs, slug);
      if slug in resolved {
        assert FirstFor(rows, |rows|, slug, resolved[slug]);
        var i :| 0 <= i < |rows| && FirstOfSlug(rows, i)
                 && rows[i].alias.slug == slug && rows[i].tag == resolved[slug];
        BulkFirstIsSingleFirst(s, v, slugs, i);
      }
    }
  }

  /** The bulk resolver: in order, exactly the tag of each slug's single lookup, and a failure that
      names exactly the slugs whose lookup is empty. Rows come from one query. */
  method ResolveTagIds(ghost s: Store, v: View, rows: seq<Hit>, tagIds: seq<nat>,
                       slugs: seq<string>, maxBulk: nat)
    returns (r: Result<seq<nat>, BulkError>)
    requires s.Valid() && Named(v.application)
    requires rows == BulkRows(s, v, slugs)
    ensures slugs == [] ==> r == Ok(tagIds)
    ensures slugs != [] && |tagIds| + |slugs| > maxBulk ==> r == Err(TooMany)
    ensures slugs != [] && |tagIds| + |slugs| <= maxBulk ==>
              if AllHit(s, v, slugs)
              then r == Ok(SingleIds(s, v, tagIds, slugs))
              else r == Err(AliasesNotFound(Missing(s, v, slugs)))
  {
    if slugs == [] { return Ok(tagIds); }
    if |tagIds| + |slugs| > maxBulk { return Err(TooMany); }
    var resolved := FirstPerSlug(rows);
    ResolvedIsSingle(s, v, slugs, resolved);
    var missing := MissingFrom(s, v, slugs, resolved);
    MissingIsEmpty(s, v, slugs);
    if missing != [] { return Err(AliasesNotFound(missing)); }
    var ids := AppendIds(s, v, tagIds, slugs, resolved);
    r := Ok(ids);
  }

  method MissingFrom(ghost s: Store, ghost v: View, slugs: seq<string>, resolved: map<string, Tag>)
    returns (missing: seq<string>)
    requires s.Valid()
    requires forall slug :: slug in slugs ==> (slug in resolved <==> FirstHit(s, v, slug).Some?)
    ensures missing == Missing(s, v, slugs)
  {
    missing := [];
    for n := 0 to |slugs|
      invariant missing == Missing(s, v, slugs[..n])
    {
      assert slugs[..n + 1][..n] == slugs[..n];
      if slugs[n] !in resolved { missing := missing + [slugs[n]]; }
    }
    assert slugs[..|slugs|] == slugs;
  }

  method AppendIds(ghost s: Store, ghost v: View, tagIds: seq<nat>, slugs: seq<string>,
                   resolved: map<string, Tag>)
    returns (ids: seq<nat>)
    requires s.Valid() && AllHit(s, v, slugs)
    requires forall i :: 0 <= i < |slugs| ==>
               slugs[i] in resolved && resolved[slugs[i]] == FirstHit(s, v, slugs[i]).value.tag
    ensures ids == SingleIds(s, v, tagIds, slugs)
  {
    ids := tagIds;
    for n := 0 to |slugs|
      invariant ids == SingleIds(s, v, tagIds, slugs[..n])
    {
      assert slugs[..n + 1][..n] == slugs[..n];
      ids := ids + [resolved[slugs[n]].id];
    }
    assert slugs[..|slugs|] == slugs;
  }
}
