/** When the canonical form forgets the order of keys: only where no two keys of
    an object tie, in the order in which JavaScript lists them after the sort. */
module KeyOrder {
  import opened CanonicalJson
  import D = Decimals

  /// Ties show through

  lemma {:induction false} SameAsItself(j: Json)
    ensures Same(j, j)
  {
    match j
    case Arr(items) =>
      forall k | 0 <= k < |items| ensures Same(items[k], items[k]) {
        SameAsItself(items[k]);
      }
    case Obj(fields) =>
      forall i | 0 <= i < |fields| ensures Matched(j, j, i) && Covered(j, j, i) {
        SameAsItself(fields[i].value);
        assert SameField(j, j, i, i);
      }
    case _ =>
  }

  // The first field whose key has this weight.
  function FirstOf(w: Collation, fields: seq<Field>, v: real): seq<Field> {
    if fields == [] then []
    else
      var n := |fields| - 1;
      var before := FirstOf(w, fields[..n], v);
      if before != [] then before else if w(fields[n].key) == v then [fields[n]] else []
  }

  lemma FirstOfAppend(w: Collation, fields: seq<Field>, x: Field, v: real)
    ensures FirstOf(w, fields + [x], v)
         == if FirstOf(w, fields, v) != [] then FirstOf(w, fields, v) else if w(x.key) == v then [x] else []
  {
    assert (fields + [x])[..|fields|] == fields;
  }

  lemma {:induction false} FirstOfInsert(w: Collation, sorted: seq<Field>, x: Field, v: real)
    ensures FirstOf(w, Insert(w, sorted, x), v) == FirstOf(w, sorted + [x], v)
  {
    if sorted != [] && w(sorted[|sorted| - 1].key) > w(x.key) {
      var n := |sorted| - 1;
      FirstOfInsert(w, sorted[..n], x, v);
      FirstOfAppend(w, Insert(w, sorted[..n], x), sorted[n], v);
      FirstOfAppend(w, sorted[..n], x, v);
      FirstOfAppend(w, sorted[..n], sorted[n], v);
      FirstOfAppend(w, sorted, x, v);
      assert sorted == sorted[..n] + [sorted[n]];
    }
  }

  // The sort is stable: among fields of one weight the first stays first.
  lemma {:induction false} FirstOfSort(w: Collation, fields: seq<Field>, v: real)
    ensures FirstOf(w, Sort(w, fields), v) == FirstOf(w, fields, v)
  {
    if fields != [] {
      var before, x := fields[..|fields| - 1], fields[|fields| - 1];
      FirstOfSort(w, before, v);
      SortUnfolded(w, fields);
      FirstOfInsert(w, Sort(w, before), x, v);
      FirstOfAppend(w, Sort(w, before), x, v);
    }
  }

  lemma {:induction false} FirstOfFront(w: Collation, x: Field, rest: seq<Field>)
    ensures FirstOf(w, [x] + rest, w(x.key)) == [x]
  {
    if rest == [] {
      assert [x] + rest == [] + [x];
      FirstOfAppend(w, [], x, w(x.key));
    } else {
      var n := |rest| - 1;
      FirstOfFront(w, x, rest[..n]);
      FirstOfAppend(w, [x] + rest[..n], rest[n], w(x.key));
      assert [x] + rest == [x] + rest[..n] + [rest[n]];
    }
  }

  // The value with field k moved to the front.
  function Fronted(fields: seq<Field>, k: nat): seq<Field>
    requires k < |fields|
  {
    [fields[k]] + (fields[..k] + fields[k + 1..])
  }

  lemma FrontedIsSame(fields: seq<Field>, k: nat)
    requires k < |fields| && DistinctKeys(fields)
    ensures Same(Obj(fields), Obj(Fronted(fields, k)))
  {
    var a, b := Obj(fields), Obj(Fronted(fields, k));
    forall i | 0 <= i < |fields| ensures Matched(a, b, i) {
      SameAsItself(fields[i].value);
      assert SameField(a, b, i, if i == k then 0 else if i < k then i + 1 else i);
    }
    forall j | 0 <= j < |b.fields| ensures Covered(a, b, j) {
      var i := if j == 0 then k else if j <= k then j - 1 else j;
      SameAsItself(fields[i].value);
      assert SameField(a, b, i, j);
    }
  }

  lemma FrontedIsWellFormed(fields: seq<Field>, k: nat)
    requires k < |fields| && WellFormed(Obj(fields))
    ensures WellFormed(Obj(Fronted(fields, k)))
  {
    var g := Fronted(fields, k);
    forall j | 0 <= j < |g| ensures g[j] == fields[if j == 0 then k else if j <= k then j - 1 else j] {}
    assert forall j | 0 <= j < |g| :: WellFormed(g[j].value);
  }

  lemma FrontIsFirst(w: Collation, fields: seq<Field>, k: nat)
    requires k < |fields|
    ensures Canonical(w, Obj(Fronted(fields, k))).Obj?
    ensures FirstOf(w, Canonical(w, Obj(Fronted(fields, k))).fields, w(fields[k].key))
         == [Field(fields[k].key, Canonical(w, fields[k].value))]
  {
    var f := Mapped(w, Fronted(fields, k));
    CanonicalObject(w, Fronted(fields, k));
    FirstOfSort(w, f, w(fields[k].key));
    FirstOfFront(w, f[0], f[1..]);
    assert f == [f[0]] + f[1..];
  }

  // With two keys of one weight, bringing either to the front changes which of
  // them comes first in the canonical form.
  lemma TiedKeysKeepTheirOrder(w: Collation, fields: seq<Field>, i: nat, k: nat)
    requires i < |fields| && k < |fields| && w(fields[i].key) == w(fields[k].key) && fields[i].key != fields[k].key
    ensures Canonical(w, Obj(Fronted(fields, i))) != Canonical(w, Obj(Fronted(fields, k)))
  {
    FrontIsFirst(w, fields, i);
    FrontIsFirst(w, fields, k);
  }

  lemma ChangedIsSame(fields: seq<Field>, k: nat, value: Json)
    requires k < |fields| && Same(fields[k].value, value)
    ensures Same(Obj(fields), Obj(Changed(fields, k, value)))
  {
    var a, b := Obj(fields), Obj(Changed(fields, k, value));
    forall i | 0 <= i < |fields| ensures SameField(a, b, i, i) {
      SameAsItself(fields[i].value);
    }
    forall i | 0 <= i < |a.fields| ensures Matched(a, b, i) {
      assert SameField(a, b, i, i);
    }
    forall j | 0 <= j < |b.fields| ensures Covered(a, b, j) {
      assert SameField(a, b, j, j);
    }
    assert |b.fields| == |a.fields|;
    assert Same(a, b);
  }

  lemma ChangedDiffers(w: Collation, fields: seq<Field>, k: nat, value: Json)
    requires k < |fields| && DistinctKeys(fields) && Canonical(w, fields[k].value) != Canonical(w, value)
    ensures Canonical(w, Obj(fields)) != Canonical(w, Obj(Changed(fields, k, value)))
  {
    var after := Changed(fields, k, value);
    var f, g := Mapped(w, fields), Mapped(w, after);
    CanonicalObject(w, fields);
    CanonicalObject(w, after);
    SortMembers(w, f, f[k]);
    SortMembers(w, g, f[k]);
    forall j | 0 <= j < |g| ensures g[j] != f[k] {
      assert after[j].key == fields[j].key;
    }
  }

  lemma ReplacedIsSame(items: seq<Json>, k: nat, value: Json)
    requires k < |items| && Same(items[k], value) && WellFormed(Arr(items)) && WellFormed(value)
    ensures Same(Arr(items), Arr(items[k := value])) && WellFormed(Arr(items[k := value]))
  {
    var after := items[k := value];
    forall i | 0 <= i < |items| ensures Same(items[i], after[i]) && WellFormed(after[i]) {
      SameAsItself(items[i]);
    }
  }

  // If some object has two keys that collate as equal, its canonical form does
  // depend on the order: another listing of the same value has a different one.
  lemma {:induction false} OrderShowsThroughTies(w: Collation, a: Json) returns (x: Json, y: Json)
    requires WellFormed(a) && !Separated(w, a)
    ensures WellFormed(x) && WellFormed(y)
    ensures Same(a, x) && Same(a, y) && Canonical(w, x) != Canonical(w, y)
  {
    match a
    case Arr(items) =>
      var k: nat :| k < |items| && !Separated(w, items[k]);
      var p, q := OrderShowsThroughTies(w, items[k]);
      x, y := Arr(items[k := p]), Arr(items[k := q]);
      ReplacedIsSame(items, k, p);
      ReplacedIsSame(items, k, q);
      assert Canonical(w, x).items[k] != Canonical(w, y).items[k];
    case Obj(fields) =>
      if !DistinctWeights(w, fields) {
        var i: nat, k: nat :| i < k < |fields| && w(fields[i].key) == w(fields[k].key);
        x, y := Obj(Fronted(fields, i)), Obj(Fronted(fields, k));
        FrontedIsSame(fields, i);
        FrontedIsSame(fields, k);
        FrontedIsWellFormed(fields, i);
        FrontedIsWellFormed(fields, k);
        TiedKeysKeepTheirOrder(w, fields, i, k);
      } else {
        var k: nat :| k < |fields| && !Separated(w, fields[k].value);
        var p, q := OrderShowsThroughTies(w, fields[k].value);
        var r := if Canonical(w, p) != Canonical(w, fields[k].value) then p else q;
        ChangedIsSame(fields, k, r);
        ChangedDiffers(w, fields, k, r);
        SameAsItself(a);
        x, y := a, Obj(Changed(fields, k, r));
        ChangedIsWellFormed(fields, k, r);
      }
    case _ =>
  }

  /// The order in which JavaScript lists the keys

  // Keys that are array indices, at most 2^32 - 2.
  predicate IntegerLike(key: string) { D.Plain(key) && D.Number(key) < 4294967295 }

  // They are listed first, in numeric order; the others as they were sorted.
  function EnumerationOrder(collate: Collation): Collation {
    key => if IntegerLike(key) then D.Number(key) as real - 4294967296.0 else collate(key)
  }

  // No two keys of an object collate as equal, unless one is an array index.
  predicate KeysApart(collate: Collation, j: Json) {
    match j
    case Arr(items) => forall k | 0 <= k < |items| :: KeysApart(collate, items[k])
    case Obj(fields) =>
      && (forall i, k | 0 <= i < k < |fields| :: !IntegerLike(fields[i].key) && !IntegerLike(fields[k].key) ==>
           collate(fields[i].key) != collate(fields[k].key))
      && forall k | 0 <= k < |fields| :: KeysApart(collate, fields[k].value)
    case _ => true
  }

  ghost predicate Ranks(collate: Collation) { forall key :: collate(key) >= 0.0 }

  lemma ApartInOrder(collate: Collation, x: string, y: string)
    requires Ranks(collate) && x != y
    ensures EnumerationOrder(collate)(x) != EnumerationOrder(collate)(y)
       <==> (IntegerLike(x) || IntegerLike(y) || collate(x) != collate(y))
  {
    if IntegerLike(x) && IntegerLike(y) && D.Number(x) == D.Number(y) {
      D.OneSpelling(x, y);
    }
    assert collate(x) >= 0.0 && collate(y) >= 0.0;
  }

  lemma {:induction false} SeparatedExactlyWhenKeysApart(collate: Collation, j: Json)
    requires Ranks(collate) && WellFormed(j)
    ensures Separated(EnumerationOrder(collate), j) <==> KeysApart(collate, j)
  {
    var w := EnumerationOrder(collate);
    match j
    case Arr(items) =>
      forall k | 0 <= k < |items| ensures Separated(w, items[k]) <==> KeysApart(collate, items[k]) {
        SeparatedExactlyWhenKeysApart(collate, items[k]);
      }
    case Obj(fields) =>
      forall k | 0 <= k < |fields| ensures Separated(w, fields[k].value) <==> KeysApart(collate, fields[k].value) {
        SeparatedExactlyWhenKeysApart(collate, fields[k].value);
      }
      forall i, k | 0 <= i < k < |fields|
        ensures w(fields[i].key) != w(fields[k].key) <==>
                (IntegerLike(fields[i].key) || IntegerLike(fields[k].key)
                  || collate(fields[i].key) != collate(fields[k].key))
      {
        ApartInOrder(collate, fields[i].key, fields[k].key);
      }
    case _ =>
  }

  // All listings of a request have one canonical form exactly when no two keys of
  // one of its objects, neither of them an array index, collate as equal.
  lemma OrderForgottenExactlyWhenKeysApart(collate: Collation, a: Json)
    requires Ranks(collate) && WellFormed(a)
    ensures KeysApart(collate, a) <==>
            forall x, y | WellFormed(x) && WellFormed(y) && Same(a, x) && Same(a, y) ::
              Canonical(EnumerationOrder(collate), x) == Canonical(EnumerationOrder(collate), y)
  {
    var w := EnumerationOrder(collate);
    SeparatedExactlyWhenKeysApart(collate, a);
    if KeysApart(collate, a) {
      forall x | WellFormed(x) && Same(a, x) ensures Canonical(w, x) == Canonical(w, a) {
        SameLooksTheSame(w, a, x);
      }
    } else {
      var x, y := OrderShowsThroughTies(w, a);
    }
  }
}
