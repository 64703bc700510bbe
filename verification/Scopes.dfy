/** The isolation scope every row carries: an application and a namespace below it.
    A namespace is a pair of nullable columns; null/null is the global namespace. */
module Scopes {

  datatype Option<+T> = None | Some(value: T)

  datatype Result<+T, +E> = Ok(value: T) | Err(error: E)

  datatype Namespace = Namespace(kind: Option<string>, id: Option<string>) {
    predicate IsGlobal() {
      kind.None?
    }
  }

  const GLOBAL := Namespace(None, None)

  const RESERVED_KIND := "global"

  predicate IsBlank(text: string) {
    forall i :: 0 <= i < |text| ==> text[i] in " \t\n\r"
  }

  /** Text is blank if it has no character but blanks, the empty text included. */
  lemma BlankIs(text: string)
    ensures IsBlank(text) <==> forall c :: c in text ==> c == ' ' || c == '\t' || c == '\n' || c == '\r'
    ensures IsBlank("")
  {
    forall i | 0 <= i < |text|
      ensures text[i] in text
      ensures text[i] in " \t\n\r" <==> text[i] == ' ' || text[i] == '\t' || text[i] == '\n' || text[i] == '\r'
    {}
  }

  /** The values a request scope can be built from; anything else raises ValueError. */
  predicate IsScopeContext(ns: Namespace) {
    || ns == GLOBAL
    || (ns.kind.Some? && ns.id.Some?
        && !IsBlank(ns.kind.value) && !IsBlank(ns.id.value) && ns.kind.value != RESERVED_KIND)
  }

  /** The database check constraint on every namespaced table. */
  predicate NamespaceScopeCheck(application: Option<string>, ns: Namespace) {
    || ns == GLOBAL
    || (ns.kind.Some? && ns.id.Some? && application.Some?
        && ns.kind.value != "" && ns.id.value != "" && ns.kind.value != RESERVED_KIND)
  }

  /** The scope part of the three partial constraints: shared and global rows, application rows in
      the global namespace, and namespaced application rows. */
  predicate SameScopeColumns(app1: Option<string>, ns1: Namespace,
                             app2: Option<string>, ns2: Namespace) {
    || (app1.None? && app2.None? && ns1 == ns2 == GLOBAL)
    || (app1.Some? && app1 == app2 && ns1 == ns2 == GLOBAL)
    || (app1.Some? && app1 == app2 && ns1 == ns2 && ns1.kind.Some? && ns1.id.Some?)
  }

  /** Whether a row's namespace columns match a request scope; the row predicate and the
      query filter of the source are this one condition. */
  predicate MatchesScope(row: Namespace, scope: Namespace, includeGlobal: bool) {
    if scope.IsGlobal() then
      row == GLOBAL
    else
      row == scope || (includeGlobal && row == GLOBAL)
  }

  /** The namespaced-write kill-switch: global writes always pass. */
  predicate MayWrite(writes: bool, ns: Namespace) {
    ns.IsGlobal() || writes
  }

  /** A truthy application parameter: Python treats both None and "" as absent. */
  predicate Named(application: Option<string>) {
    application.Some? && application.value != ""
  }

  /** A row may refer to a row that is at least as widely shared as itself. */
  predicate ApplicationReaches(from: Option<string>, to: Option<string>) {
    to.None? || to == from
  }

  function Min(a: int, b: int): int { if a <= b then a else b }

  function Max(a: int, b: int): int { if a <= b then b else a }

  function Bit(b: bool): nat { if b then 1 else 0 }
}
