/** What resolution returns, when it can be ambiguous, and what it can depend on. */
module ResolutionTheorems {
  import opened Scopes
  import opened Ordering
  import opened Resolution

  function TagRung(v: View, t: Tag): nat {
    Rung(v, t.application, t.ns)
  }

  function HitRung(v: View, h: Hit): nat {
    Rung(v, h.alias.application, h.alias.ns)
  }

  ghost predicate TopTag(s: Store, v: View, slug: string, kind: Option<string>, t: Tag) {
    && IsTagMatch(s, v, slug, kind, t)
    && forall u :: IsTagMatch(s, v, slug, kind, u) ==> TagRung(v, t) <= TagRung(v, u)
  }

  /** The unique most specific visible tag. */
  ghost predicate BestTag(s: Store, v: View, slug: string, kind: Option<string>, t: Tag) {
    && IsTagMatch(s, v, slug, kind, t)
    && forall u :: IsTagMatch(s, v, slug, kind, u) && u != t ==> TagRung(v, t) < TagRung(v, u)
  }

  ghost predicate TopHit(s: Store, v: View, slug: string, h: Hit) {
    && IsAliasMatch(s, v, slug, h)
    && forall g :: IsAliasMatch(s, v, slug, g) ==> HitRung(v, h) <= HitRung(v, g)
  }

  ghost predicate BestHit(s: Store, v: View, slug: string, h: Hit) {
    && IsAliasMatch(s, v, slug, h)
    && forall g :: IsAliasMatch(s, v, slug, g) && g != h ==> HitRung(v, h) < HitRung(v, g)
  }

  /** If the named application has a matching tag of its own, query order puts one first. */
  lemma OwnTagsFirst(s: Store, v: View, slug: string, kind: Option<string>)
    requires s.Valid() && Named(v.application)
    requires InNamedApplication(v, TagRows(s, v, slug, kind)) != []
    ensures var rows := TagRows(s, v, slug, kind);
            && rows != [] && rows[0].application == v.application
            && InNamedApplication(v, rows)[0] == rows[0]
  {
    TagRowsAre(s, v, slug, kind);
    var rows := TagRows(s, v, slug, kind);
    var own := InNamedApplication(v, rows)[0];
    assert own in rows && IsTagMatch(s, v, slug, kind, own) && rows[0] in rows;
    assert rows[0] != own ==> Less(TagKey(v, rows[0]), TagKey(v, own));
  }

  lemma TagRowsAscend(s: Store, v: View, slug: string, kind: Option<string>)
    requires s.Valid()
    ensures var rows := TagRows(s, v, slug, kind);
            && NoRepeats(rows)
            && forall i :: 0 <= i < |rows| ==> TagRung(v, rows[0]) <= TagRung(v, rows[i])
  {
    TagRowsAre(s, v, slug, kind);
    var rows := TagRows(s, v, slug, kind);
    forall i, j | 0 <= i < j < |rows| ensures rows[i] != rows[j] {
      LessOrder(TagKey(v, rows[i]), TagKey(v, rows[j]), TagKey(v, rows[j]));
    }
    forall i | 0 < i < |rows| ensures TagRung(v, rows[0]) <= TagRung(v, rows[i]) {
      assert Less(TagKey(v, rows[0]), TagKey(v, rows[i]));
    }
  }

  lemma CandidatesShareRung(s: Store, v: View, slug: string, kind: Option<string>)
    requires s.Valid() && TagRows(s, v, slug, kind) != []
    ensures var rows := TagRows(s, v, slug, kind);
            forall t :: t in TagCandidates(v, rows)
                        <==> t in rows && TagRung(v, t) == TagRung(v, rows[0])
  {
    var rows := TagRows(s, v, slug, kind);
    var own := InNamedApplication(v, rows);
    if Named(v.application) && own != [] {
      OwnTagsFirst(s, v, slug, kind);
      TagRowsAre(s, v, slug, kind);
      forall t | t in rows && TagRung(v, t) == TagRung(v, rows[0])
        ensures t.application == v.application
      {
        assert rows[0] in rows && IsTagMatch(s, v, slug, kind, rows[0]);
        assert IsTagMatch(s, v, slug, kind, t);
      }
    }
  }

  lemma CandidatesAreTop(s: Store, v: View, slug: string, kind: Option<string>)
    requires s.Valid() && TagRows(s, v, slug, kind) != []
    ensures var candidates := TagCandidates(v, TagRows(s, v, slug, kind));
            && NoRepeats(candidates)
            && forall t :: t in candidates <==> TopTag(s, v, slug, kind, t)
  {
    var rows := TagRows(s, v, slug, kind);
    TagRowsAre(s, v, slug, kind);
    TagRowsAscend(s, v, slug, kind);
    CandidatesShareRung(s, v, slug, kind);
    assert rows[0] in rows && IsTagMatch(s, v, slug, kind, rows[0]);
    forall u | IsTagMatch(s, v, slug, kind, u) ensures TagRung(v, rows[0]) <= TagRung(v, u) {
      assert u in rows;
    }
  }

  lemma HitRowsAscend(s: Store, v: View, slug: string)
    requires s.Valid()
    ensures var rows := AliasRows(s, v, slug);
            && NoRepeats(rows)
            && forall i :: 0 <= i < |rows| ==> HitRung(v, rows[0]) <= HitRung(v, rows[i])
  {
    AliasRowsAre(s, v, slug);
    var rows := AliasRows(s, v, slug);
    forall i, j | 0 <= i < j < |rows| ensures rows[i] != rows[j] {
      LessOrder(AliasKey(v, rows[i].alias), AliasKey(v, rows[j].alias), AliasKey(v, rows[j].alias));
    }
    forall i | 0 < i < |rows| ensures HitRung(v, rows[0]) <= HitRung(v, rows[i]) {
      assert Less(AliasKey(v, rows[0].alias), AliasKey(v, rows[i].alias));
    }
  }

  lemma HitsAreTop(s: Store, v: View, slug: string)
    requires s.Valid() && AliasRows(s, v, slug) != []
    ensures var top := MostSpecificHits(v, AliasRows(s, v, slug));
            NoRepeats(top) && forall h :: h in top <==> TopHit(s, v, slug, h)
  {
    var rows := AliasRows(s, v, slug);
    AliasRowsAre(s, v, slug);
    HitRowsAscend(s, v, slug);
    assert rows[0] in rows && IsAliasMatch(s, v, slug, rows[0]);
    forall g | IsAliasMatch(s, v, slug, g) ensures HitRung(v, rows[0]) <= HitRung(v, g) {
      assert g in rows;
    }
    var top := MostSpecificHits(v, rows);
    forall h ensures h in top <==> h in rows && HitRung(v, h) == HitRung(v, rows[0]) {}
  }

  ghost predicate HasTag(s: Store, v: View, slug: string, kind: Option<string>) {
    exists t :: IsTagMatch(s, v, slug, kind, t)
  }

  ghost predicate HasHit(s: Store, v: View, slug: string) {
    exists h :: IsAliasMatch(s, v, slug, h)
  }

  lemma HasTagRows(s: Store, v: View, slug: string, kind: Option<string>)
    requires s.Valid()
    ensures HasTag(s, v, slug, kind) <==> TagRows(s, v, slug, kind) != []
  {
    TagRowsAre(s, v, slug, kind);
    var rows := TagRows(s, v, slug, kind);
    assert rows != [] ==> rows[0] in rows;
  }

  lemma HasHitRows(s: Store, v: View, slug: string)
    requires s.Valid()
    ensures HasHit(s, v, slug) <==> AliasRows(s, v, slug) != []
  {
    AliasRowsAre(s, v, slug);
    var rows := AliasRows(s, v, slug);
    assert rows != [] ==> rows[0] in rows;
  }

  lemma OnlyTopTag(s: Store, v: View, slug: string, kind: Option<string>, t: Tag, top: seq<Tag>)
    requires top != [] && NoRepeats(top)
    requires forall u :: u in top <==> TopTag(s, v, slug, kind, u)
    ensures top == [t] <==> BestTag(s, v, slug, kind, t)
  {
    if BestTag(s, v, slug, kind, t) {
      assert TopTag(s, v, slug, kind, t);
      forall u | u in top ensures u == t {
        assert TopTag(s, v, slug, kind, u);
      }
      TieIsMany(top);
    }
    if top == [t] {
      assert t in top;
      forall u | IsTagMatch(s, v, slug, kind, u) && u != t ensures TagRung(v, t) < TagRung(v, u) {
        assert u !in top;
      }
    }
  }

  /** A tag is returned exactly when it is the unique most specific visible match. */
  lemma ResolvesToBestTag(s: Store, v: View, slug: string, kind: Option<string>, t: Tag)
    requires s.Valid()
    ensures ResolveIn(s, v, slug, kind) == Ok(TagMatch(t)) <==> BestTag(s, v, slug, kind, t)
  {
    HasTagRows(s, v, slug, kind);
    if TagRows(s, v, slug, kind) != [] {
      CandidatesAreTop(s, v, slug, kind);
      var candidates := TagCandidates(v, TagRows(s, v, slug, kind));
      OnlyTopTag(s, v, slug, kind, t, candidates);
    }
  }

  lemma OnlyTopHit(s: Store, v: View, slug: string, h: Hit, top: seq<Hit>)
    requires top != [] && NoRepeats(top)
    requires forall g :: g in top <==> TopHit(s, v, slug, g)
    ensures top == [h] <==> BestHit(s, v, slug, h)
  {
    if BestHit(s, v, slug, h) {
      assert TopHit(s, v, slug, h);
      forall g | g in top ensures g == h {
        assert TopHit(s, v, slug, g);
      }
      TieIsMany(top);
    }
    if top == [h] {
      assert h in top;
      forall g | IsAliasMatch(s, v, slug, g) && g != h ensures HitRung(v, h) < HitRung(v, g) {
        assert g !in top;
      }
    }
  }

  /** An alias is returned exactly when no tag matches and it is the unique most specific visible
      alias; its canonical tag comes with it. */
  lemma ResolvesToBestAlias(s: Store, v: View, slug: string, kind: Option<string>, h: Hit)
    requires s.Valid()
    ensures ResolveIn(s, v, slug, kind) == Ok(AliasMatch(h.alias, h.tag))
            <==> !HasTag(s, v, slug, kind) && BestHit(s, v, slug, h)
  {
    HasTagRows(s, v, slug, kind);
    HasHitRows(s, v, slug);
    if TagRows(s, v, slug, kind) == [] && AliasRows(s, v, slug) != [] {
      HitsAreTop(s, v, slug);
      var top := MostSpecificHits(v, AliasRows(s, v, slug));
      OnlyTopHit(s, v, slug, h, top);
      assert top[0] == Hit(top[0].alias, top[0].tag) && h == Hit(h.alias, h.tag);
    }
  }

  ghost predicate TagTie(s: Store, v: View, slug: string, kind: Option<string>) {
    exists t, u :: TopTag(s, v, slug, kind, t) && TopTag(s, v, slug, kind, u) && t != u
  }

  ghost predicate TypeTie(s: Store, v: View, slug: string, kind: Option<string>) {
    exists t, u :: TopTag(s, v, slug, kind, t) && TopTag(s, v, slug, kind, u) && t.kind != u.kind
  }

  ghost predicate HitTie(s: Store, v: View, slug: string) {
    exists g, h :: TopHit(s, v, slug, g) && TopHit(s, v, slug, h) && g != h
  }

  /** Exactly when each error is raised. */
  lemma ResolutionErrors(s: Store, v: View, slug: string, kind: Option<string>)
    requires s.Valid()
    ensures var r := ResolveIn(s, v, slug, kind);
            && (r == Err(NoMatch) <==> !HasTag(s, v, slug, kind) && !HasHit(s, v, slug))
            && (r == Err(ProvideType) <==> kind.None? && TypeTie(s, v, slug, kind))
            && (r == Err(Ambiguous) <==>
                  || (TagTie(s, v, slug, kind) && !(kind.None? && TypeTie(s, v, slug, kind)))
                  || (!HasTag(s, v, slug, kind) && HitTie(s, v, slug)))
  {
    HasTagRows(s, v, slug, kind);
    HasHitRows(s, v, slug);
    if TagRows(s, v, slug, kind) != [] {
      CandidatesAreTop(s, v, slug, kind);
      var candidates := TagCandidates(v, TagRows(s, v, slug, kind));
      TieIsMany(candidates);
    } else if AliasRows(s, v, slug) != [] {
      HitsAreTop(s, v, slug);
      var top := MostSpecificHits(v, AliasRows(s, v, slug));
      TieIsMany(top);
    }
  }

  lemma TieIsMany<T>(rows: seq<T>)
    requires NoRepeats(rows)
    ensures |rows| > 1 <==> exists x, y :: x in rows && y in rows && x != y
  {
    if |rows| > 1 {
      assert rows[0] in rows && rows[1] in rows && rows[0] != rows[1];
    }
  }

  // ----- Ambiguity

  /** Each rung of the ladder is one scope: two visible rows on it have the same application and
      the same namespace. */
  lemma RungIsOneScope(v: View, app1: Option<string>, ns1: Namespace,
                       app2: Option<string>, ns2: Namespace)
    requires Named(v.application) || v.scope.IsGlobal()
    requires NamespaceScopeCheck(app1, ns1) && NamespaceScopeCheck(app2, ns2)
    requires Sees(v, v.tenant, app1, ns1) && Sees(v, v.tenant, app2, ns2)
    requires Rung(v, app1, ns1) == Rung(v, app2, ns2)
    ensures SameScopeColumns(app1, ns1, app2, ns2)
  {}

  lemma OneTopTagPerType(s: Store, v: View, slug: string, kind: Option<string>, t: Tag, u: Tag)
    requires s.Valid() && s.Unique() && (Named(v.application) || v.scope.IsGlobal())
    requires TopTag(s, v, slug, kind, t) && TopTag(s, v, slug, kind, u) && t.kind == u.kind
    ensures t == u
  {}

  lemma OneTopHit(s: Store, v: View, slug: string, g: Hit, h: Hit)
    requires s.Valid() && s.Unique() && (Named(v.application) || v.scope.IsGlobal())
    requires TopHit(s, v, slug, g) && TopHit(s, v, slug, h)
    ensures g == h
  {}

  /** Where a request names an application or resolves globally, only types can tie: aliases never
      do, a type parameter always settles the tie, and an ambiguity is reported exactly when the
      type parameter is present but empty, which filters nothing and yet counts as provided. */
  lemma OnlyTypesTie(s: Store, v: View, slug: string, kind: Option<string>)
    requires s.Valid() && s.Unique() && (Named(v.application) || v.scope.IsGlobal())
    ensures var r := ResolveIn(s, v, slug, kind);
            && (r == Err(ProvideType) <==> kind == None && TypeTie(s, v, slug, kind))
            && (r == Err(Ambiguous) <==> kind == Some("") && TypeTie(s, v, slug, kind))
  {
    ResolutionErrors(s, v, slug, kind);
    forall t, u | TopTag(s, v, slug, kind, t) && TopTag(s, v, slug, kind, u) && t != u
      ensures t.kind != u.kind
    {
      if t.kind == u.kind { OneTopTagPerType(s, v, slug, kind, t, u); }
    }
    forall g, h | TopHit(s, v, slug, g) && TopHit(s, v, slug, h) ensures g == h {
      OneTopHit(s, v, slug, g, h);
    }
    assert !HitTie(s, v, slug);
  }

  /** So a request that names an application or is global never meets the ambiguity error unless
      it sends an empty type. */
  lemma AmbiguityNeedsEmptyType(
    s: Store, tenant: string, slug: string, application: Option<string>, kind: Option<string>,
    scope: Namespace, qualifier: Option<string>, authorizedGlobal: bool)
    requires s.Valid() && s.Unique() && (Named(application) || scope.IsGlobal())
    requires kind != Some("")
    ensures ResolveTagReference(s, tenant, slug, application, kind, scope, qualifier,
                                authorizedGlobal) != Err(Ambiguous)
  {
    match EffectiveScope(scope, qualifier, authorizedGlobal)
    case Err(_) =>
    case Ok(effective) =>
      OnlyTypesTie(s, View(tenant, application, effective.0, effective.1), slug, kind);
  }

  const COLOUR := Tag(1, "t", None, GLOBAL, "colour", "red", "Red", true)
  const TEAM := Tag(2, "t", None, GLOBAL, "team", "red", "Red", true)

  const TWO_REDS := Store(map[1 := COLOUR, 2 := TEAM], map[])

  lemma BothRedsAreTop(v: View, kind: Option<string>)
    requires v.tenant == "t" && v.includeGlobal && (kind == None || kind == Some(""))
    ensures TWO_REDS.Valid() && TWO_REDS.Unique()
    ensures TypeTie(TWO_REDS, v, "red", kind)
  {}

  /** An empty type parameter does meet it: two shared tags of different types, one slug. */
  lemma EmptyTypeIsAmbiguous(application: Option<string>, scope: Namespace)
    ensures TWO_REDS.Valid() && TWO_REDS.Unique()
    ensures ResolveTagReference(TWO_REDS, "t", "red", application, Some(""), scope, None, true)
            == Err(Ambiguous)
    ensures ResolveTagReference(TWO_REDS, "t", "red", application, None, scope, None, true)
            == Err(ProvideType)
  {
    var v := View("t", application, scope, true);
    BothRedsAreTop(v, None);
    BothRedsAreTop(v, Some(""));
    ResolutionErrors(TWO_REDS, v, "red", Some(""));
    ResolutionErrors(TWO_REDS, v, "red", None);
  }

  // ----- The ladder, without its rungs

  /** One row is more specific than another: it is the named application's own and the other is
      shared, or both are in one application and only it is in the request's namespace. */
  predicate MoreSpecific(v: View, app1: Option<string>, ns1: Namespace,
                         app2: Option<string>, ns2: Namespace) {
    (app1.Some? && app2.None?) || (app1 == app2 && ns1 == v.scope && ns2 != v.scope)
  }

  lemma RungsAreSpecificity(v: View, app1: Option<string>, ns1: Namespace,
                            app2: Option<string>, ns2: Namespace)
    requires Named(v.application)
    requires NamespaceScopeCheck(app1, ns1) && NamespaceScopeCheck(app2, ns2)
    requires Sees(v, v.tenant, app1, ns1) && Sees(v, v.tenant, app2, ns2)
    ensures Rung(v, app1, ns1) < Rung(v, app2, ns2) <==> MoreSpecific(v, app1, ns1, app2, ns2)
  {}

  /** A request that names no application has two rungs, its own namespace and below it the global one. */
  lemma UnnamedRungs(v: View, app1: Option<string>, ns1: Namespace, app2: Option<string>, ns2: Namespace)
    requires !Named(v.application)
    requires Sees(v, v.tenant, app1, ns1) && Sees(v, v.tenant, app2, ns2)
    ensures Rung(v, app1, ns1) < Rung(v, app2, ns2) <==> ns1 == v.scope && ns2 != v.scope
  {}

  ghost predicate MostSpecificTag(s: Store, v: View, slug: string, kind: Option<string>, t: Tag) {
    && IsTagMatch(s, v, slug, kind, t)
    && forall u :: IsTagMatch(s, v, slug, kind, u) && u != t ==>
         MoreSpecific(v, t.application, t.ns, u.application, u.ns)
  }

  ghost predicate MostSpecificHit(s: Store, v: View, slug: string, h: Hit) {
    && IsAliasMatch(s, v, slug, h)
    && forall g :: IsAliasMatch(s, v, slug, g) && g != h ==>
         MoreSpecific(v, h.alias.application, h.alias.ns, g.alias.application, g.alias.ns)
  }

  lemma BestIsMostSpecific(s: Store, v: View, slug: string, kind: Option<string>, t: Tag)
    requires s.Valid() && Named(v.application)
    ensures BestTag(s, v, slug, kind, t) <==> MostSpecificTag(s, v, slug, kind, t)
  {}

  lemma BestHitIsMostSpecific(s: Store, v: View, slug: string, h: Hit)
    requires s.Valid() && Named(v.application)
    ensures BestHit(s, v, slug, h) <==> MostSpecificHit(s, v, slug, h)
  {}

  /** With an application named, the resolver returns a tag exactly when it is more specific than
      every other visible match; and an alias exactly when no tag matches and the alias is more
      specific than every other. */
  lemma ResolvesMostSpecific(s: Store, v: View, slug: string, kind: Option<string>, t: Tag, h: Hit)
    requires s.Valid() && Named(v.application)
    ensures ResolveIn(s, v, slug, kind) == Ok(TagMatch(t)) <==> MostSpecificTag(s, v, slug, kind, t)
    ensures ResolveIn(s, v, slug, kind) == Ok(AliasMatch(h.alias, h.tag))
            <==> !HasTag(s, v, slug, kind) && MostSpecificHit(s, v, slug, h)
  {
    ResolvesToBestTag(s, v, slug, kind, t);
    ResolvesToBestAlias(s, v, slug, kind, h);
    BestIsMostSpecific(s, v, slug, kind, t);
    BestHitIsMostSpecific(s, v, slug, h);
  }

  /** A pinned request gets rows of the pinned namespace and no other. */
  lemma PinsAreExact(
    s: Store, tenant: string, slug: string, application: Option<string>, kind: Option<string>,
    scope: Namespace, qualifier: Option<string>, authorizedGlobal: bool)
    requires s.Valid() && qualifier.Some?
    ensures var r := ResolveTagReference(s, tenant, slug, application, kind, scope, qualifier,
                                         authorizedGlobal);
            r.Ok? ==>
              var pinned := if qualifier.value == "global" then GLOBAL else scope;
              && (qualifier.value == "global" || (qualifier.value == "merchant" && !scope.IsGlobal()))
              && r.value.tag.ns == pinned && (r.value.AliasMatch? ==> r.value.alias.ns == pinned)
  {
    match EffectiveScope(scope, qualifier, authorizedGlobal)
    case Err(_) =>
    case Ok(effective) =>
      var v := View(tenant, application, effective.0, effective.1);
      var r := ResolveIn(s, v, slug, kind);
      if r.Ok? && r.value.TagMatch? {
        ResolvesToBestTag(s, v, slug, kind, r.value.tag);
      } else if r.Ok? {
        ResolvesToBestAlias(s, v, slug, kind, Hit(r.value.alias, r.value.tag));
      }
  }

  /** Every alias is in the tenant of its tag, and within the tag's application. */
  ghost predicate AliasesReach(s: Store) {
    forall id :: id in s.aliases ==>
      var l := s.aliases[id];
      && l.tag in s.tags && s.tags[l.tag].tenant == l.tenant
      && ApplicationReaches(l.application, s.tags[l.tag].application)
  }

  /** Which scope qualifiers are accepted: none at all, a pin to global rows where the request is
      authorized for them, a pin to its namespace where it has one; and how the others are refused. */
  lemma QualifierAccepted(scope: Namespace, qualifier: Option<string>, authorizedGlobal: bool)
    ensures var r := EffectiveScope(scope, qualifier, authorizedGlobal);
            && (r.Ok? <==> || qualifier.None? || (qualifier.value == "global" && authorizedGlobal)
                           || (qualifier.value == "merchant" && scope.kind.Some?))
            && (r == Err(NoMatch) <==> qualifier == Some("global") && !authorizedGlobal)
            && (r == Err(NeedsNamespace) <==> qualifier == Some("merchant") && scope.kind.None?)
            && (r == Err(BadQualifier)
                <==> qualifier.Some? && qualifier.value != "global" && qualifier.value != "merchant")
  {}

  /** A pin answers as the request it stands for, made without one: a pin to global rows as a global
      request, a pin to the namespace as the same request without the global rows. Without a pin a
      request is answered in its own scope, with global rows if it is authorized for them. */
  lemma PinAnswers(s: Store, tenant: string, slug: string, application: Option<string>, kind: Option<string>,
                   scope: Namespace, authorizedGlobal: bool)
    requires s.Valid() && IsScopeContext(scope)
    ensures authorizedGlobal ==>
              ResolveTagReference(s, tenant, slug, application, kind, scope, Some("global"), true)
              == ResolveTagReference(s, tenant, slug, application, kind, GLOBAL, None, false)
    ensures scope.kind.Some? ==>
              ResolveTagReference(s, tenant, slug, application, kind, scope, Some("merchant"), authorizedGlobal)
              == ResolveTagReference(s, tenant, slug, application, kind, scope, None, false)
    ensures ResolveTagReference(s, tenant, slug, application, kind, scope, None, authorizedGlobal)
            == ResolveIn(s, View(tenant, application, scope, authorizedGlobal), slug, kind)
  {}

  /** What a request can see, column by column: rows of its tenant; of its namespace, or global if it is
      authorized for those besides; of its application or shared; and where it names none, any
      application's rows of its namespace. */
  lemma VisibleIs(v: View, tenant: string, application: Option<string>, ns: Namespace)
    requires IsScopeContext(v.scope)
    ensures Sees(v, tenant, application, ns)
            <==> && tenant == v.tenant
                 && (ns == v.scope || (ns.kind.None? && ns.id.None? && v.includeGlobal))
                 && (|| application.None?
                     || (if v.application.Some? && v.application.value != "" then application == v.application
                         else ns == v.scope && ns.kind.Some?))
  {}

  /** A tag matches if it is active and visible under the slug, and of the type where one is named; an
      alias if it and its tag are both active, it is visible under the slug, and the tag's namespace is
      one the request sees. */
  lemma MatchesAre(s: Store, v: View, slug: string, kind: Option<string>, t: Tag, l: Alias)
    requires s.Valid() && IsScopeContext(v.scope)
    ensures IsTagMatch(s, v, slug, kind, t)
            <==> && t.id in s.tags && s.tags[t.id] == t && t.active && t.slug == slug
                 && Sees(v, t.tenant, t.application, t.ns)
                 && (kind.Some? && kind.value != "" ==> t.kind == kind.value)
    ensures IsAliasMatch(s, v, slug, Hit(l, t))
            <==> && l.id in s.aliases && s.aliases[l.id] == l && s.tags[l.tag] == t && l.active && l.slug == slug
                 && Sees(v, l.tenant, l.application, l.ns) && t.active
                 && (t.ns == v.scope || (t.ns.kind.None? && t.ns.id.None? && v.includeGlobal))
  {}

  /** A named type leaves the tags of that type; no type, or an empty one, leaves all. */
  lemma TypeFilters(s: Store, v: View, slug: string, kind: Option<string>)
    requires s.Valid()
    ensures forall t :: t in TagRows(s, v, slug, kind)
                        <==> t in TagRows(s, v, slug, None) && (kind.Some? && kind.value != "" ==> t.kind == kind.value)
    ensures kind.None? || kind.value == "" ==> TagRows(s, v, slug, kind) == TagRows(s, v, slug, None)
  {
    TagRowsAre(s, v, slug, kind);
    TagRowsAre(s, v, slug, None);
    forall t | kind.None? || kind.value == ""
      ensures TagMatches(v, slug, kind, t) <==> TagMatches(v, slug, None, t)
    {}
    if kind.None? || kind.value == "" {
      assert TagKeys(s, v, slug, kind) == TagKeys(s, v, slug, None);
      assert TagRows(s, v, slug, kind) == TagRows(s, v, slug, None);
    }
  }

  // ----- Non-interference

  predicate SeesTag(v: View, t: Tag) {
    Sees(v, t.tenant, t.application, t.ns)
  }

  predicate SeesAlias(v: View, a: Alias) {
    Sees(v, a.tenant, a.application, a.ns)
  }

  /** Two stores hold the same visible tags, the same visible aliases, and the same tags under
      those aliases. */
  ghost predicate Agree(s: Store, z: Store, v: View)
    requires s.Valid() && z.Valid()
  {
    && (forall id :: id in s.tags && SeesTag(v, s.tags[id]) ==> id in z.tags && z.tags[id] == s.tags[id])
    && (forall id :: id in z.tags && SeesTag(v, z.tags[id]) ==> id in s.tags && s.tags[id] == z.tags[id])
    && (forall id :: id in s.aliases && SeesAlias(v, s.aliases[id]) ==>
          && id in z.aliases && z.aliases[id] == s.aliases[id]
          && z.tags[z.aliases[id].tag] == s.tags[s.aliases[id].tag])
    && (forall id :: id in z.aliases && SeesAlias(v, z.aliases[id]) ==>
          && id in s.aliases && s.aliases[id] == z.aliases[id]
          && s.tags[s.aliases[id].tag] == z.tags[z.aliases[id].tag])
  }

  lemma SameTagKeys(s: Store, z: Store, v: View, slug: string, kind: Option<string>)
    requires s.Valid() && z.Valid() && Agree(s, z, v)
    ensures TagKeys(s, v, slug, kind) == TagKeys(z, v, slug, kind)
  {}

  lemma SameTag(s: Store, z: Store, v: View, slug: string, kind: Option<string>, k: Key)
    requires s.Valid() && z.Valid() && Agree(s, z, v) && k in TagKeys(s, v, slug, kind)
    ensures k.id in s.tags && k.id in z.tags && s.tags[k.id] == z.tags[k.id]
  {}

  lemma SameTagRows(s: Store, z: Store, v: View, slug: string, kind: Option<string>)
    requires s.Valid() && z.Valid() && Agree(s, z, v)
    ensures TagRows(s, v, slug, kind) == TagRows(z, v, slug, kind)
  {
    SameTagKeys(s, z, v, slug, kind);
    var keys := Ordered(TagKeys(s, v, slug, kind));
    var rows, others := TagRows(s, v, slug, kind), TagRows(z, v, slug, kind);
    forall i | 0 <= i < |keys| ensures rows[i] == others[i] {
      SameTag(s, z, v, slug, kind, keys[i]);
    }
  }

  lemma SameAliasKeys(s: Store, z: Store, v: View, slug: string)
    requires s.Valid() && z.Valid() && Agree(s, z, v)
    ensures AliasKeys(s, v, slug) == AliasKeys(z, v, slug)
  {}

  lemma SameHit(s: Store, z: Store, v: View, slug: string, k: Key)
    requires s.Valid() && z.Valid() && Agree(s, z, v) && k in AliasKeys(s, v, slug)
    ensures k.id in s.aliases && k.id in z.aliases && s.aliases[k.id] == z.aliases[k.id]
    ensures s.tags[s.aliases[k.id].tag] == z.tags[z.aliases[k.id].tag]
  {}

  lemma SameAliasRows(s: Store, z: Store, v: View, slug: string)
    requires s.Valid() && z.Valid() && Agree(s, z, v)
    ensures AliasRows(s, v, slug) == AliasRows(z, v, slug)
  {
    SameAliasKeys(s, z, v, slug);
    var keys := Ordered(AliasKeys(s, v, slug));
    var rows, others := AliasRows(s, v, slug), AliasRows(z, v, slug);
    forall i | 0 <= i < |keys| ensures rows[i] == others[i] {
      SameHit(s, z, v, slug, keys[i]);
    }
  }

  ghost predicate Narrows(v: View, w: View) {
    forall tenant, application, ns :: Sees(v, tenant, application, ns) ==> Sees(w, tenant, application, ns)
  }

  /** Pinning a request to a namespace or to global rows never widens what it sees. */
  lemma QualifierNarrows(tenant: string, application: Option<string>, scope: Namespace,
                         qualifier: Option<string>, authorizedGlobal: bool)
    requires EffectiveScope(scope, qualifier, authorizedGlobal).Ok?
    ensures var effective := EffectiveScope(scope, qualifier, authorizedGlobal).value;
            Narrows(View(tenant, application, effective.0, effective.1),
                    View(tenant, application, scope, authorizedGlobal))
  {}

  lemma NarrowerViewAgrees(s: Store, z: Store, v: View, w: View)
    requires s.Valid() && z.Valid() && Agree(s, z, w) && Narrows(v, w)
    ensures Agree(s, z, v)
  {}

  /** Resolution depends on nothing outside the request's tenant, its application and shared rows,
      and the namespaces it may see. */
  lemma NonInterference(
    s: Store, z: Store, tenant: string, slug: string, application: Option<string>,
    kind: Option<string>, scope: Namespace, qualifier: Option<string>, authorizedGlobal: bool)
    requires s.Valid() && z.Valid()
    requires Agree(s, z, View(tenant, application, scope, authorizedGlobal))
    ensures ResolveTagReference(s, tenant, slug, application, kind, scope, qualifier, authorizedGlobal)
         == ResolveTagReference(z, tenant, slug, application, kind, scope, qualifier, authorizedGlobal)
  {
    match EffectiveScope(scope, qualifier, authorizedGlobal)
    case Err(_) =>
    case Ok(effective) =>
      var v := View(tenant, application, effective.0, effective.1);
      QualifierNarrows(tenant, application, scope, qualifier, authorizedGlobal);
      NarrowerViewAgrees(s, z, v, View(tenant, application, scope, authorizedGlobal));
      SameTagRows(s, z, v, slug, kind);
      SameAliasRows(s, z, v, slug);
  }
}
