/** Canonical form of a request: at every depth, the fields of an object in the
    order of a collation, and every date an empty object, since a date has no
    enumerable property. Field order does not matter to the hash, nor do dates. */
module CanonicalJson {
  // The fields of an object are listed in the order they were added.
  datatype Json =
    | Null | Bool(b: bool) | Number(n: real) | Str(s: string)
    | Date(at: int)
    | Arr(items: seq<Json>)
    | Obj(fields: seq<Field>)
  datatype Field = Field(key: string, value: Json)

  // Where the collation puts a key; different keys may collate as equal.
  type Collation = string -> real

  /// The stable sort

  function Insert(w: Collation, sorted: seq<Field>, x: Field): seq<Field> {
    if sorted == [] || w(sorted[|sorted| - 1].key) <= w(x.key) then sorted + [x]
    else Insert(w, sorted[..|sorted| - 1], x) + [sorted[|sorted| - 1]]
  }

  function Sort(w: Collation, fields: seq<Field>): seq<Field> {
    if fields == [] then [] else Insert(w, Sort(w, fields[..|fields| - 1]), fields[|fields| - 1])
  }

  function Canonical(w: Collation, j: Json): Json {
    match j
    case Arr(items) => Arr(seq(|items|, k requires 0 <= k < |items| => Canonical(w, items[k])))
    case Obj(fields) => Obj(Sort(w,
      seq(|fields|, k requires 0 <= k < |fields| => Field(fields[k].key, Canonical(w, fields[k].value)))))
    case Date(_) => Obj([])
    case _ => j
  }

  function Mapped(w: Collation, fields: seq<Field>): (r: seq<Field>)
    ensures |r| == |fields|
    ensures forall k | 0 <= k < |fields| :: r[k] == Field(fields[k].key, Canonical(w, fields[k].value))
  {
    seq(|fields|, k requires 0 <= k < |fields| => Field(fields[k].key, Canonical(w, fields[k].value)))
  }

  lemma CanonicalObject(w: Collation, fields: seq<Field>)
    ensures Canonical(w, Obj(fields)) == Obj(Sort(w, Mapped(w, fields)))
  {
    assert Mapped(w, fields) == seq(|fields|,
        k requires 0 <= k < |fields| => Field(fields[k].key, Canonical(w, fields[k].value)));
  }

  /// Equality up to field order

  ghost predicate Same(a: Json, b: Json)
    decreases a, 2
  {
    match a
    case Arr(items) => b.Arr? && |items| == |b.items| && forall k | 0 <= k < |items| :: Same(items[k], b.items[k])
    case Obj(fields) =>
      && b.Obj? && |fields| == |b.fields|
      && (forall i | 0 <= i < |fields| :: Matched(a, b, i))
      && (forall k | 0 <= k < |b.fields| :: Covered(a, b, k))
    case _ => a == b
  }

  ghost predicate SameField(a: Json, b: Json, i: int, k: int)
    requires a.Obj? && b.Obj? && 0 <= i < |a.fields| && 0 <= k < |b.fields|
    decreases a, 0
  {
    a.fields[i].key == b.fields[k].key && Same(a.fields[i].value, b.fields[k].value)
  }

  // Field i of the first object is somewhere in the second.
  ghost predicate Matched(a: Json, b: Json, i: int)
    requires a.Obj? && b.Obj? && 0 <= i < |a.fields|
    decreases a, 1
  {
    exists k :: 0 <= k < |b.fields| && SameField(a, b, i, k)
  }

  // Field k of the second object is somewhere in the first.
  ghost predicate Covered(a: Json, b: Json, k: int)
    requires a.Obj? && b.Obj? && 0 <= k < |b.fields|
    decreases a, 1
  {
    exists i :: 0 <= i < |a.fields| && SameField(a, b, i, k)
  }

  predicate DistinctKeys(fields: seq<Field>) {
    forall i, k | 0 <= i < k < |fields| :: fields[i].key != fields[k].key
  }

  // What a parsed value is: no object has a key twice.
  predicate WellFormed(j: Json) {
    match j
    case Arr(items) => forall k | 0 <= k < |items| :: WellFormed(items[k])
    case Obj(fields) => DistinctKeys(fields) && forall k | 0 <= k < |fields| :: WellFormed(fields[k].value)
    case _ => true
  }

  predicate DistinctWeights(w: Collation, fields: seq<Field>) {
    forall i, k | 0 <= i < k < |fields| :: w(fields[i].key) != w(fields[k].key)
  }

  // No two keys of one object collate as equal, at any depth.
  predicate Separated(w: Collation, j: Json) {
    match j
    case Arr(items) => forall k | 0 <= k < |items| :: Separated(w, items[k])
    case Obj(fields) => DistinctWeights(w, fields) && forall k | 0 <= k < |fields| :: Separated(w, fields[k].value)
    case _ => true
  }

  /// The sort keeps the fields and orders them

  predicate Ordered(w: Collation, fields: seq<Field>) {
    forall i, k | 0 <= i < k < |fields| :: w(fields[i].key) <= w(fields[k].key)
  }

  lemma {:induction false} InsertedAmong(w: Collation, sorted: seq<Field>, x: Field)
    ensures forall y | y in Insert(w, sorted, x) :: y == x || y in sorted
  {
    if sorted != [] && w(sorted[|sorted| - 1].key) > w(x.key) {
      InsertedAmong(w, sorted[..|sorted| - 1], x);
    }
  }

  lemma {:induction false} InsertKeeps(w: Collation, sorted: seq<Field>, x: Field)
    ensures multiset(Insert(w, sorted, x)) == multiset(sorted) + multiset{x}
  {
    if sorted != [] && w(sorted[|sorted| - 1].key) > w(x.key) {
      var n := |sorted| - 1;
      InsertKeeps(w, sorted[..n], x);
      assert sorted == sorted[..n] + [sorted[n]];
    }
  }

  lemma {:induction false} InsertOrders(w: Collation, sorted: seq<Field>, x: Field)
    requires Ordered(w, sorted)
    ensures Ordered(w, Insert(w, sorted, x))
  {
    if sorted != [] && w(sorted[|sorted| - 1].key) > w(x.key) {
      var n := |sorted| - 1;
      var r := Insert(w, sorted[..n], x);
      InsertOrders(w, sorted[..n], x);
      InsertedAmong(w, sorted[..n], x);
      forall k | 0 <= k < |r| ensures w(r[k].key) <= w(sorted[n].key) {
        assert r[k] in r;
      }
    }
  }

  lemma {:induction false} SortKeeps(w: Collation, fields: seq<Field>)
    ensures multiset(Sort(w, fields)) == multiset(fields) && Ordered(w, Sort(w, fields))
  {
    if fields != [] {
      var n := |fields| - 1;
      SortKeeps(w, fields[..n]);
      InsertKeeps(w, Sort(w, fields[..n]), fields[n]);
      InsertOrders(w, Sort(w, fields[..n]), fields[n]);
      assert fields == fields[..n] + [fields[n]];
    }
  }

  lemma SortMembers(w: Collation, fields: seq<Field>, x: Field)
    ensures x in Sort(w, fields) <==> x in fields
    ensures |Sort(w, fields)| == |fields|
  {
    SortKeeps(w, fields);
    assert x in multiset(fields) <==> x in fields;
    assert x in multiset(Sort(w, fields)) <==> x in Sort(w, fields);
    assert |multiset(fields)| == |fields| && |multiset(Sort(w, fields))| == |Sort(w, fields)|;
  }

  lemma SortUnfolded(w: Collation, fields: seq<Field>)
    requires fields != []
    ensures Sort(w, fields) == Insert(w, Sort(w, fields[..|fields| - 1]), fields[|fields| - 1])
  {}

  lemma InsertAtTheEnd(w: Collation, sorted: seq<Field>, x: Field)
    requires sorted != [] ==> w(sorted[|sorted| - 1].key) <= w(x.key)
    ensures Insert(w, sorted, x) == sorted + [x]
  {}

  lemma {:induction false} SortOfOrdered(w: Collation, fields: seq<Field>)
    requires Ordered(w, fields)
    ensures Sort(w, fields) == fields
  {
    if fields != [] {
      var n := |fields| - 1;
      SortOfOrdered(w, fields[..n]);
      SortUnfolded(w, fields);
      InsertAtTheEnd(w, fields[..n], fields[n]);
      assert fields == fields[..n] + [fields[n]];
    }
  }

  /// Main results

  // The canonical form is its own canonical form.
  lemma {:induction false} CanonicalIsIdempotent(w: Collation, j: Json)
    ensures Canonical(w, Canonical(w, j)) == Canonical(w, j)
  {
    match j
    case Arr(items) =>
      forall k | 0 <= k < |items| ensures Canonical(w, Canonical(w, items[k])) == Canonical(w, items[k]) {
        CanonicalIsIdempotent(w, items[k]);
      }
    case Obj(fields) =>
      var mapped := Mapped(w, fields);
      var sorted := Sort(w, mapped);
      CanonicalObject(w, fields);
      CanonicalObject(w, sorted);
      forall k | 0 <= k < |sorted| ensures Mapped(w, sorted)[k] == sorted[k] {
        SortMembers(w, mapped, sorted[k]);
        var i :| 0 <= i < |mapped| && mapped[i] == sorted[k];
        CanonicalIsIdempotent(w, fields[i].value);
      }
      assert Mapped(w, sorted) == sorted;
      SortKeeps(w, mapped);
      SortOfOrdered(w, sorted);
    case _ =>
  }

  predicate NoDates(j: Json) {
    match j
    case Date(_) => false
    case Arr(items) => forall k | 0 <= k < |items| :: NoDates(items[k])
    case Obj(fields) => forall k | 0 <= k < |fields| :: NoDates(fields[k].value)
    case _ => true
  }

  // Without dates, equal canonical forms come from values equal up to field order.
  lemma {:induction false} CanonicalForgetsOnlyOrder(w: Collation, a: Json, b: Json)
    requires NoDates(a) && NoDates(b) && Canonical(w, a) == Canonical(w, b)
    ensures Same(a, b)
    decreases a
  {
    match a
    case Arr(items) =>
      forall k | 0 <= k < |items| ensures Same(items[k], b.items[k]) {
        assert Canonical(w, a).items[k] == Canonical(w, b).items[k];
        CanonicalForgetsOnlyOrder(w, items[k], b.items[k]);
      }
    case Obj(fields) =>
      var f, g := Mapped(w, fields), Mapped(w, b.fields);
      CanonicalObject(w, fields);
      CanonicalObject(w, b.fields);
      forall i | 0 <= i < |fields| ensures Matched(a, b, i) {
        SortMembers(w, f, f[i]);
        SortMembers(w, g, f[i]);
        var k :| 0 <= k < |g| && g[k] == f[i];
        CanonicalForgetsOnlyOrder(w, fields[i].value, b.fields[k].value);
        assert SameField(a, b, i, k);
      }
      forall k | 0 <= k < |b.fields| ensures Covered(a, b, k) {
        SortMembers(w, f, g[k]);
        SortMembers(w, g, g[k]);
        var i :| 0 <= i < |f| && f[i] == g[k];
        CanonicalForgetsOnlyOrder(w, fields[i].value, b.fields[k].value);
        assert SameField(a, b, i, k);
      }
      SortMembers(w, f, Field("", Null));
      SortMembers(w, g, Field("", Null));
    case _ =>
  }

  predicate StrictlyOrdered(w: Collation, fields: seq<Field>) {
    forall i, k | 0 <= i < k < |fields| :: w(fields[i].key) < w(fields[k].key)
  }

  lemma {:induction false} InsertIsStrict(w: Collation, sorted: seq<Field>, x: Field)
    requires StrictlyOrdered(w, sorted) && forall k | 0 <= k < |sorted| :: w(sorted[k].key) != w(x.key)
    ensures StrictlyOrdered(w, Insert(w, sorted, x))
  {
    if sorted != [] && w(sorted[|sorted| - 1].key) > w(x.key) {
      var n := |sorted| - 1;
      InsertIsStrict(w, sorted[..n], x);
      var r := Insert(w, sorted[..n], x);
      InsertedAmong(w, sorted[..n], x);
      forall k | 0 <= k < |r| ensures w(r[k].key) < w(sorted[n].key) {
        assert r[k] in r;
      }
    }
  }

  lemma {:induction false} SortIsStrict(w: Collation, fields: seq<Field>)
    requires DistinctWeights(w, fields)
    ensures StrictlyOrdered(w, Sort(w, fields))
  {
    if fields != [] {
      var n := |fields| - 1;
      SortIsStrict(w, fields[..n]);
      var sorted := Sort(w, fields[..n]);
      forall k | 0 <= k < |sorted| ensures w(sorted[k].key) != w(fields[n].key) {
        SortMembers(w, fields[..n], sorted[k]);
        var i :| 0 <= i < n && fields[..n][i] == sorted[k];
        assert fields[i] == sorted[k];
      }
      InsertIsStrict(w, sorted, fields[n]);
    }
  }

  ghost predicate SameMembers(a: seq<Field>, b: seq<Field>) {
    |a| == |b| && forall x :: x in a <==> x in b
  }

  // Two strictly ordered listings of the same fields are one.
  lemma {:induction false} OneOrder(w: Collation, a: seq<Field>, b: seq<Field>)
    requires SameMembers(a, b) && StrictlyOrdered(w, a) && StrictlyOrdered(w, b)
    ensures a == b
  {
    if a != [] {
      var n := |a| - 1;
      LastIsLast(w, a, b);
      ShorterMembers(w, a, b);
      OneOrder(w, a[..n], b[..n]);
      assert a == a[..n] + [a[n]] && b == b[..n] + [b[n]];
    }
  }

  lemma LastIsLast(w: Collation, a: seq<Field>, b: seq<Field>)
    requires a != [] && SameMembers(a, b) && StrictlyOrdered(w, a) && StrictlyOrdered(w, b)
    ensures a[|a| - 1] == b[|b| - 1]
  {
    var n := |a| - 1;
    assert a[n] in a && b[n] in b;
    var i :| 0 <= i < |b| && b[i] == a[n];
    var k :| 0 <= k < |a| && a[k] == b[n];
  }

  lemma ShorterMembers(w: Collation, a: seq<Field>, b: seq<Field>)
    requires a != [] && SameMembers(a, b) && StrictlyOrdered(w, a) && StrictlyOrdered(w, b)
    requires a[|a| - 1] == b[|b| - 1]
    ensures SameMembers(a[..|a| - 1], b[..|b| - 1])
  {
    var n := |a| - 1;
    forall x ensures x in a[..n] <==> x in b[..n] {
      AllButTheLast(w, a, x);
      AllButTheLast(w, b, x);
    }
  }

  lemma AllButTheLast(w: Collation, a: seq<Field>, x: Field)
    requires a != [] && StrictlyOrdered(w, a)
    ensures x in a[..|a| - 1] <==> x in a && x != a[|a| - 1]
  {
    var n := |a| - 1;
    assert a == a[..n] + [a[n]];
    if x in a[..n] {
      var k :| 0 <= k < n && a[..n][k] == x;
      assert w(a[k].key) < w(a[n].key);
    }
  }

  lemma SortedListingsAgree(w: Collation, f: seq<Field>, g: seq<Field>)
    requires SameMembers(f, g) && DistinctWeights(w, f) && DistinctWeights(w, g)
    ensures Sort(w, f) == Sort(w, g)
  {
    var a, b := Sort(w, f), Sort(w, g);
    SortIsStrict(w, f);
    SortIsStrict(w, g);
    SortMembers(w, f, Field("", Null));
    SortMembers(w, g, Field("", Null));
    forall x ensures x in a <==> x in b {
      SortMembers(w, f, x);
      SortMembers(w, g, x);
    }
    OneOrder(w, a, b);
  }

  // Where no two keys of an object collate as equal, values equal up to field
  // order have one canonical form.
  lemma {:induction false} OrderIsForgotten(w: Collation, a: Json, b: Json)
    requires Same(a, b) && Separated(w, a) && Separated(w, b)
    ensures Canonical(w, a) == Canonical(w, b)
    decreases a
  {
    match a
    case Arr(items) =>
      forall k | 0 <= k < |items| ensures Canonical(w, items[k]) == Canonical(w, b.items[k]) {
        OrderIsForgotten(w, items[k], b.items[k]);
      }
    case Obj(fields) =>
      var f, g := Mapped(w, fields), Mapped(w, b.fields);
      CanonicalObject(w, fields);
      CanonicalObject(w, b.fields);
      forall i | 0 <= i < |f| ensures f[i] in g {
        assert Matched(a, b, i);
        var k :| 0 <= k < |b.fields| && SameField(a, b, i, k);
        OrderIsForgotten(w, fields[i].value, b.fields[k].value);
        assert g[k] == f[i];
      }
      forall k | 0 <= k < |g| ensures g[k] in f {
        assert Covered(a, b, k);
        var i :| 0 <= i < |fields| && SameField(a, b, i, k);
        OrderIsForgotten(w, fields[i].value, b.fields[k].value);
        assert f[i] == g[k];
      }
      SortedListingsAgree(w, f, g);
    case _ =>
  }

  lemma Source(a: Json, b: Json, k: int) returns (i: int)
    requires a.Obj? && b.Obj? && 0 <= k < |b.fields| && Covered(a, b, k)
    ensures 0 <= i < |a.fields| && SameField(a, b, i, k)
  {
    i :| 0 <= i < |a.fields| && SameField(a, b, i, k);
  }

  // Being separated does not depend on the order.
  lemma {:induction false} SeparatedUpToOrder(w: Collation, a: Json, b: Json)
    requires Same(a, b) && WellFormed(b) && Separated(w, a)
    ensures Separated(w, b)
    decreases a
  {
    match a
    case Arr(items) =>
      forall k | 0 <= k < |items| ensures Separated(w, b.items[k]) {
        SeparatedUpToOrder(w, items[k], b.items[k]);
      }
    case Obj(fields) =>
      forall k | 0 <= k < |b.fields| ensures Separated(w, b.fields[k].value) {
        assert Covered(a, b, k);
        var i :| 0 <= i < |fields| && SameField(a, b, i, k);
        SeparatedUpToOrder(w, fields[i].value, b.fields[k].value);
      }
      forall i, k | 0 <= i < k < |b.fields| ensures w(b.fields[i].key) != w(b.fields[k].key) {
        var x := Source(a, b, i);
        var y := Source(a, b, k);
        assert b.fields[i].key != b.fields[k].key;
      }
    case _ =>
  }

  lemma SameLooksTheSame(w: Collation, a: Json, b: Json)
    requires WellFormed(b) && Separated(w, a) && Same(a, b)
    ensures Canonical(w, a) == Canonical(w, b)
  {
    SeparatedUpToOrder(w, a, b);
    OrderIsForgotten(w, a, b);
  }

  /// One field changed

  function Changed(fields: seq<Field>, k: nat, value: Json): seq<Field>
    requires k < |fields|
  {
    fields[k := Field(fields[k].key, value)]
  }

  lemma ChangedIsWellFormed(fields: seq<Field>, k: nat, value: Json)
    requires k < |fields| && WellFormed(Obj(fields)) && WellFormed(value)
    ensures WellFormed(Obj(Changed(fields, k, value)))
  {
    var after := Changed(fields, k, value);
    forall i | 0 <= i < |fields| ensures after[i].key == fields[i].key && WellFormed(after[i].value) {}
  }

  lemma ChangedLooksTheSame(w: Collation, fields: seq<Field>, k: nat, value: Json)
    requires k < |fields| && Canonical(w, value) == Canonical(w, fields[k].value)
    ensures Canonical(w, Obj(Changed(fields, k, value))) == Canonical(w, Obj(fields))
  {
    var after := Changed(fields, k, value);
    CanonicalObject(w, fields);
    CanonicalObject(w, after);
    assert Mapped(w, after) == Mapped(w, fields);
  }

  lemma ChangedIsAnother(fields: seq<Field>, k: nat, value: Json)
    requires k < |fields| && DistinctKeys(fields) && !Same(fields[k].value, value)
    ensures !Same(Obj(fields), Obj(Changed(fields, k, value)))
  {
    var a, b := Obj(fields), Obj(Changed(fields, k, value));
    assert forall i | 0 <= i < |fields| :: b.fields[i].key == fields[i].key;
    assert !Matched(a, b, k);
  }

  lemma SameKeySameField(a: Json, b: Json, i: int, k: int)
    requires a.Obj? && b.Obj? && DistinctKeys(b.fields) && Same(a, b)
    requires 0 <= i < |a.fields| && 0 <= k < |b.fields| && a.fields[i].key == b.fields[k].key
    ensures Same(a.fields[i].value, b.fields[k].value)
  {
    assert Matched(a, b, i);
    var j :| 0 <= j < |b.fields| && SameField(a, b, i, j);
    assert j == k;
  }
}
