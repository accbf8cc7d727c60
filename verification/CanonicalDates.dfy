/** What the canonical form hides besides the order of fields: every date becomes
    an empty object. */
module CanonicalDates {
  import opened CanonicalJson

  // The value with every date replaced by an empty object.
  function Erased(j: Json): Json {
    match j
    case Date(_) => Obj([])
    case Arr(items) => Arr(seq(|items|, k requires 0 <= k < |items| => Erased(items[k])))
    case Obj(fields) => Obj(seq(|fields|,
        k requires 0 <= k < |fields| => Field(fields[k].key, Erased(fields[k].value))))
    case _ => j
  }

  function ErasedFields(fields: seq<Field>): (r: seq<Field>)
    ensures |r| == |fields| && Erased(Obj(fields)) == Obj(r)
    ensures forall k | 0 <= k < |fields| :: r[k].key == fields[k].key && r[k].value == Erased(fields[k].value)
  {
    Erased(Obj(fields)).fields
  }

  // Erasing the dates changes nothing that the canonical form shows.
  lemma {:induction false} ErasedLooksTheSame(w: Collation, j: Json)
    ensures Canonical(w, Erased(j)) == Canonical(w, j) && NoDates(Erased(j))
  {
    match j
    case Arr(items) =>
      var e := Erased(j).items;
      forall k | 0 <= k < |items| ensures Canonical(w, e[k]) == Canonical(w, items[k]) && NoDates(e[k]) {
        ErasedLooksTheSame(w, items[k]);
      }
      assert Canonical(w, Erased(j)).items == Canonical(w, j).items;
    case Obj(fields) =>
      var e := ErasedFields(fields);
      forall k | 0 <= k < |fields|
        ensures Canonical(w, e[k].value) == Canonical(w, fields[k].value) && NoDates(e[k].value)
      {
        ErasedLooksTheSame(w, fields[k].value);
      }
      CanonicalObject(w, e);
      CanonicalObject(w, fields);
      assert Mapped(w, e) == Mapped(w, fields);
    case _ =>
  }

  // Nor does it change the keys.
  lemma {:induction false} ErasedKeepsKeys(w: Collation, j: Json)
    ensures WellFormed(j) ==> WellFormed(Erased(j))
    ensures Separated(w, j) ==> Separated(w, Erased(j))
  {
    match j
    case Arr(items) =>
      forall k | 0 <= k < |items| { ErasedKeepsKeys(w, items[k]); }
    case Obj(fields) =>
      var e := ErasedFields(fields);
      forall k | 0 <= k < |fields|
        ensures WellFormed(fields[k].value) ==> WellFormed(e[k].value)
        ensures Separated(w, fields[k].value) ==> Separated(w, e[k].value)
      {
        ErasedKeepsKeys(w, fields[k].value);
      }
    case _ =>
  }

  // Two requests have one canonical form exactly when they are equal up to the
  // order of fields at every depth and to what their dates are.
  lemma CanonicalExactlyWhenSame(w: Collation, a: Json, b: Json)
    requires WellFormed(a) && WellFormed(b) && Separated(w, a)
    ensures Canonical(w, a) == Canonical(w, b) <==> Same(Erased(a), Erased(b))
  {
    ErasedLooksTheSame(w, a);
    ErasedLooksTheSame(w, b);
    ErasedKeepsKeys(w, a);
    ErasedKeepsKeys(w, b);
    if Same(Erased(a), Erased(b)) {
      SameLooksTheSame(w, Erased(a), Erased(b));
    }
    if Canonical(w, a) == Canonical(w, b) {
      CanonicalForgetsOnlyOrder(w, Erased(a), Erased(b));
    }
  }

  // No date of one differs from what the other has in its place.
  predicate DatesAgree(a: Json, b: Json) {
    if a.Date? || b.Date? then a == b
    else match a
      case Arr(items) => b.Arr? ==> forall k | 0 <= k < |items| && k < |b.items| :: DatesAgree(items[k], b.items[k])
      case Obj(fields) => b.Obj? ==>
        forall i, k | 0 <= i < |fields| && 0 <= k < |b.fields| && fields[i].key == b.fields[k].key ::
          DatesAgree(fields[i].value, b.fields[k].value)
      case _ => true
  }

  // Of two requests equal but for dates, the same ones are those whose dates agree.
  lemma {:induction false} SameExactlyWhenDatesAgree(a: Json, b: Json)
    requires WellFormed(a) && WellFormed(b) && Same(Erased(a), Erased(b))
    ensures Same(a, b) <==> DatesAgree(a, b)
    decreases a
  {
    if a.Arr? && b.Arr? {
      forall k | 0 <= k < |a.items| ensures Same(a.items[k], b.items[k]) <==> DatesAgree(a.items[k], b.items[k]) {
        assert Same(Erased(a).items[k], Erased(b).items[k]);
        SameExactlyWhenDatesAgree(a.items[k], b.items[k]);
      }
    } else if a.Obj? && b.Obj? {
      assert |a.fields| == |b.fields|;
      forall i, k | 0 <= i < |a.fields| && 0 <= k < |b.fields| && a.fields[i].key == b.fields[k].key
        ensures Same(a.fields[i].value, b.fields[k].value) <==> DatesAgree(a.fields[i].value, b.fields[k].value)
      {
        SameKeySameField(Erased(a), Erased(b), i, k);
        SameExactlyWhenDatesAgree(a.fields[i].value, b.fields[k].value);
      }
      if DatesAgree(a, b) {
        forall i | 0 <= i < |a.fields| ensures Matched(a, b, i) {
          assert Matched(Erased(a), Erased(b), i);
          var k :| 0 <= k < |b.fields| && SameField(Erased(a), Erased(b), i, k);
          assert SameField(a, b, i, k);
        }
        forall k | 0 <= k < |b.fields| ensures Covered(a, b, k) {
          var i := Source(Erased(a), Erased(b), k);
          assert SameField(a, b, i, k);
        }
      }
      if Same(a, b) {
        forall i, k | 0 <= i < |a.fields| && 0 <= k < |b.fields| && a.fields[i].key == b.fields[k].key
          ensures DatesAgree(a.fields[i].value, b.fields[k].value)
        {
          SameKeySameField(a, b, i, k);
        }
      }
    }
  }

  // Neither a date nor an empty object, at any depth.
  predicate Solid(j: Json) {
    match j
    case Date(_) => false
    case Arr(items) => forall k | 0 <= k < |items| :: Solid(items[k])
    case Obj(fields) => fields != [] && forall k | 0 <= k < |fields| :: Solid(fields[k].value)
    case _ => true
  }

  lemma {:induction false} SolidStays(w: Collation, j: Json)
    ensures Solid(Canonical(w, j)) <==> Solid(j)
    ensures Solid(j) ==> NoDates(j)
  {
    match j
    case Arr(items) =>
      forall k | 0 <= k < |items|
        ensures (Solid(Canonical(w, j).items[k]) <==> Solid(items[k])) && (Solid(items[k]) ==> NoDates(items[k]))
      {
        SolidStays(w, items[k]);
      }
      assert forall k | 0 <= k < |items| :: Solid(items[k]) <==> Solid(Canonical(w, j).items[k]);
    case Obj(fields) =>
      var f := Mapped(w, fields);
      var g := Sort(w, f);
      CanonicalObject(w, fields);
      forall k | 0 <= k < |f|
        ensures f[k] in g && (Solid(f[k].value) <==> Solid(fields[k].value))
        ensures Solid(fields[k].value) ==> NoDates(fields[k].value)
      {
        SolidStays(w, fields[k].value);
        SortMembers(w, f, f[k]);
      }
      SortMembers(w, f, Field("", Null));
      if Solid(j) {
        forall k | 0 <= k < |g| ensures Solid(g[k].value) {
          SortMembers(w, f, g[k]);
          var i :| 0 <= i < |f| && f[i] == g[k];
          assert Solid(fields[i].value);
        }
      }
      if Solid(Obj(g)) {
        forall k | 0 <= k < |f| ensures Solid(fields[k].value) {
          var i :| 0 <= i < |g| && g[i] == f[k];
        }
      }
    case _ =>
  }

  // A request with a date or an empty object has another with its canonical form.
  lemma {:induction false} Confused(w: Collation, a: Json) returns (b: Json)
    requires WellFormed(a) && !Solid(a)
    ensures WellFormed(b) && Canonical(w, b) == Canonical(w, a) && !Same(a, b)
  {
    match a
    case Date(at) => b := Date(at + 1);
    case Arr(items) =>
      var k :| 0 <= k < |items| && !Solid(items[k]);
      var r := Confused(w, items[k]);
      b := Arr(items[k := r]);
      assert Canonical(w, b).items == Canonical(w, a).items;
      assert !Same(items[k], b.items[k]);
    case Obj(fields) =>
      if fields == [] {
        b := Date(0);
      } else {
        var k: nat :| k < |fields| && !Solid(fields[k].value);
        var r := Confused(w, fields[k].value);
        b := Obj(Changed(fields, k, r));
        ChangedIsWellFormed(fields, k, r);
        ChangedLooksTheSame(w, fields, k, r);
        ChangedIsAnother(fields, k, r);
      }
    case _ =>
  }

  // Its canonical form tells a request from every other exactly when the request
  // holds neither a date nor an empty object.
  lemma ToldApartExactlyWhenSolid(w: Collation, a: Json)
    requires WellFormed(a)
    ensures (forall b | WellFormed(b) && Canonical(w, b) == Canonical(w, a) :: Same(a, b)) <==> Solid(a)
  {
    if Solid(a) {
      forall b | WellFormed(b) && Canonical(w, b) == Canonical(w, a) ensures Same(a, b) {
        SolidStays(w, a);
        SolidStays(w, b);
        CanonicalForgetsOnlyOrder(w, a, b);
      }
    } else {
      var b := Confused(w, a);
    }
  }
}
