/** Query order: sort keys compared field by field, and the ordered listing of a finite set. */
module Ordering {

  predicate TextLess(a: string, b: string)
    decreases |a|
  {
    if b == "" then false
    else if a == "" then true
    else a[0] < b[0] || (a[0] == b[0] && TextLess(a[1..], b[1..]))
  }

  lemma {:induction false} TextOrder(a: string, b: string, c: string)
    ensures !TextLess(a, a)
    ensures a == b || TextLess(a, b) || TextLess(b, a)
    ensures TextLess(a, b) && TextLess(b, c) ==> TextLess(a, c)
    decreases |a|
  {
    if a != "" {
      TextOrder(a[1..], if b == "" then "" else b[1..], if c == "" then "" else c[1..]);
      assert b != "" && a[0] == b[0] && a[1..] == b[1..] ==> a == [a[0]] + a[1..] == b;
    }
  }

  /** The columns a resolution query orders by; a column a query does not use is left blank. */
  datatype Key = Key(slug: string, rung: nat, kind: string, name: string, id: nat)

  predicate Less(a: Key, b: Key) {
    if a.slug != b.slug then TextLess(a.slug, b.slug)
    else if a.rung != b.rung then a.rung < b.rung
    else if a.kind != b.kind then TextLess(a.kind, b.kind)
    else if a.name != b.name then TextLess(a.name, b.name)
    else a.id < b.id
  }

  lemma LessOrder(a: Key, b: Key, c: Key)
    ensures !Less(a, a)
    ensures a == b || Less(a, b) || Less(b, a)
    ensures Less(a, b) && Less(b, c) ==> Less(a, c)
  {
    TextOrder(a.slug, b.slug, c.slug);
    TextOrder(c.slug, b.slug, a.slug);
    TextOrder(a.kind, b.kind, c.kind);
    TextOrder(c.kind, b.kind, a.kind);
    TextOrder(a.name, b.name, c.name);
    TextOrder(c.name, b.name, a.name);
  }

  ghost predicate IsLeast(keys: set<Key>, k: Key) {
    k in keys && forall x :: x in keys && x != k ==> Less(k, x)
  }

  lemma {:induction false} LeastExists(keys: set<Key>)
    requires keys != {}
    ensures exists k :: IsLeast(keys, k)
    decreases |keys|
  {
    var k :| k in keys;
    if keys == {k} {
      assert IsLeast(keys, k);
    } else {
      var rest := keys - {k};
      LeastExists(rest);
      var m :| IsLeast(rest, m);
      var least := if Less(k, m) then k else m;
      forall x | x in keys && x != least ensures Less(least, x) {
        LessOrder(k, m, x);
      }
      assert IsLeast(keys, least);
    }
  }

  /** A finite set of rows in query order. */
  ghost function Ordered(keys: set<Key>): (rows: seq<Key>)
    ensures forall k :: k in rows <==> k in keys
    ensures forall i, j :: 0 <= i < j < |rows| ==> Less(rows[i], rows[j])
    decreases |keys|
  {
    if keys == {} then [] else
      LeastExists(keys);
      var k :| IsLeast(keys, k);
      [k] + Ordered(keys - {k})
  }

  lemma FirstIsLeast(keys: set<Key>)
    requires keys != {}
    ensures Ordered(keys) != [] && IsLeast(keys, Ordered(keys)[0])
  {}
}
