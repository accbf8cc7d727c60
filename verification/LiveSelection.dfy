/** Which product of a live's list comes next or before. */
module LiveSelection {
  import opened Wrappers

  datatype Action = SELECT(product: nat) | NEXT | PREVIOUS | HIDE

  predicate Distinct(items: seq<nat>) {
    forall i, j | 0 <= i < j < |items| :: items[i] != items[j]
  }

  // The position of the current product, or -1.
  function IndexOf(items: seq<nat>, current: Option<nat>): (i: int)
    ensures -1 <= i < |items|
  {
    if items == [] then -1
    else if current == Some(items[0]) then 0
    else if IndexOf(items[1..], current) < 0 then -1 else IndexOf(items[1..], current) + 1
  }

  function FirstEligible(items: seq<nat>, eligible: set<nat>): Option<nat> {
    if items == [] then None
    else if items[0] in eligible then Some(items[0]) else FirstEligible(items[1..], eligible)
  }

  function Reversed(items: seq<nat>): seq<nat> {
    if items == [] then [] else Reversed(items[1..]) + [items[0]]
  }

  function Beside(items: seq<nat>, eligible: set<nat>, index: int, forward: bool): Option<nat>
    requires -1 <= index < |items|
  {
    if forward then FirstEligible(items[index + 1..], eligible)
    else FirstEligible(Reversed(if index < 0 then items else items[..index]), eligible)
  }

  // The product in that direction, if there is one that may be shown.
  function Neighbour(items: seq<nat>, eligible: set<nat>, current: Option<nat>, forward: bool): Option<nat> {
    Beside(items, eligible, IndexOf(items, current), forward)
  }

  // The eligible items from position i on, in their order.
  function EligibleFrom(items: seq<nat>, eligible: set<nat>, i: nat): seq<nat>
    decreases |items| - i
  {
    if i >= |items| then []
    else (if items[i] in eligible then [items[i]] else []) + EligibleFrom(items, eligible, i + 1)
  }

  // The products shown by repeating NEXT, at most n times, until it is refused.
  function Walk(items: seq<nat>, eligible: set<nat>, current: Option<nat>, n: nat): seq<nat>
    decreases n
  {
    if n == 0 then []
    else
      match Neighbour(items, eligible, current, true)
      case None => []
      case Some(p) => [p] + Walk(items, eligible, Some(p), n - 1)
  }

  lemma {:induction false} IndexOfAt(items: seq<nat>, i: nat)
    requires Distinct(items) && i < |items|
    ensures IndexOf(items, Some(items[i])) == i
  {
    if i > 0 {
      assert items[0] != items[i];
      assert Distinct(items[1..]) by {
        forall a, b | 0 <= a < b < |items[1..]| ensures items[1..][a] != items[1..][b] {
          assert items[a + 1] != items[b + 1];
        }
      }
      IndexOfAt(items[1..], i - 1);
    }
  }

  lemma {:induction false} IndexOfNone(items: seq<nat>)
    ensures IndexOf(items, None) == -1
  {
    if items != [] {
      IndexOfNone(items[1..]);
    }
  }

  lemma FirstUnfolded(items: seq<nat>, eligible: set<nat>, i: nat)
    requires i < |items|
    ensures FirstEligible(items[i..], eligible)
         == if items[i] in eligible then Some(items[i]) else FirstEligible(items[i + 1..], eligible)
  {
    assert items[i..][1..] == items[i + 1..];
  }

  lemma EligibleUnfolded(items: seq<nat>, eligible: set<nat>, i: nat)
    requires i < |items|
    ensures EligibleFrom(items, eligible, i)
         == (if items[i] in eligible then [items[i]] else []) + EligibleFrom(items, eligible, i + 1)
  {}

  // Where the first eligible item from position i on is, and what is left after it.
  lemma {:induction false} FirstEligibleFrom(items: seq<nat>, eligible: set<nat>, i: nat) returns (j: nat)
    requires i <= |items|
    ensures i <= j <= |items|
    ensures FirstEligible(items[i..], eligible) == if j < |items| then Some(items[j]) else None
    ensures j < |items| ==> items[j] in eligible
    ensures forall k | i <= k < j :: items[k] !in eligible
    ensures EligibleFrom(items, eligible, i) == if j < |items| then [items[j]] + EligibleFrom(items, eligible, j + 1)
        else []
    decreases |items| - i
  {
    j := i;
    if i < |items| {
      FirstUnfolded(items, eligible, i);
      EligibleUnfolded(items, eligible, i);
      if items[i] !in eligible {
        j := FirstEligibleFrom(items, eligible, i + 1);
        assert [] + EligibleFrom(items, eligible, i + 1) == EligibleFrom(items, eligible, i + 1);
      }
    }
  }

  lemma NextPosition(items: seq<nat>, eligible: set<nat>, current: Option<nat>, i: nat) returns (j: nat)
    requires IndexOf(items, current) + 1 == i
    ensures i <= j <= |items|
    ensures Neighbour(items, eligible, current, true) == if j < |items| then Some(items[j]) else None
    ensures EligibleFrom(items, eligible, i) == if j < |items| then [items[j]] + EligibleFrom(items, eligible, j + 1)
        else []
  {
    j := FirstEligibleFrom(items, eligible, i);
  }

  lemma WalkUnfolded(items: seq<nat>, eligible: set<nat>, current: Option<nat>, n: nat, p: nat)
    requires n > 0 && Neighbour(items, eligible, current, true) == Some(p)
    ensures Walk(items, eligible, current, n) == [p] + Walk(items, eligible, Some(p), n - 1)
  {}

  lemma WalkEnds(items: seq<nat>, eligible: set<nat>, current: Option<nat>, n: nat)
    requires Neighbour(items, eligible, current, true).None?
    ensures Walk(items, eligible, current, n) == []
  {}

  // One step of the walk, from position i to the next eligible item.
  lemma WalkStep(items: seq<nat>, eligible: set<nat>, current: Option<nat>, i: nat, n: nat) returns (j: nat)
    requires Distinct(items) && IndexOf(items, current) + 1 == i && n >= |items| - i
    ensures i <= j <= |items|
    ensures j < |items| ==>
              && IndexOf(items, Some(items[j])) == j && n > 0
              && Walk(items, eligible, current, n) == [items[j]] + Walk(items, eligible, Some(items[j]), n - 1)
              && EligibleFrom(items, eligible, i) == [items[j]] + EligibleFrom(items, eligible, j + 1)
    ensures j == |items| ==> Walk(items, eligible, current, n) == EligibleFrom(items, eligible, i) == []
  {
    j := NextPosition(items, eligible, current, i);
    if j < |items| {
      IndexOfAt(items, j);
      WalkUnfolded(items, eligible, current, n, items[j]);
    } else {
      WalkEnds(items, eligible, current, n);
    }
  }

  lemma {:induction false} WalkFrom(items: seq<nat>, eligible: set<nat>, current: Option<nat>, i: nat, n: nat)
    requires Distinct(items) && IndexOf(items, current) + 1 == i && n >= |items| - i
    ensures Walk(items, eligible, current, n) == EligibleFrom(items, eligible, i)
    decreases n
  {
    var j := WalkStep(items, eligible, current, i, n);
    if j < |items| {
      WalkFrom(items, eligible, Some(items[j]), j + 1, n - 1);
    }
  }

  // From nothing shown, repeating NEXT shows exactly the eligible items, in
  // their order, once each, and is then refused.
  lemma NextEnumeratesEligible(items: seq<nat>, eligible: set<nat>, n: nat)
    requires Distinct(items) && n >= |items|
    ensures Walk(items, eligible, None, n) == EligibleFrom(items, eligible, 0)
  {
    IndexOfNone(items);
    WalkFrom(items, eligible, None, 0, n);
  }

  lemma {:induction false} EligibleItemsAreThose(items: seq<nat>, eligible: set<nat>, i: nat, p: nat)
    ensures p in EligibleFrom(items, eligible, i) <==> p in eligible && exists k | i <= k < |items| :: items[k] == p
    decreases |items| - i
  {
    if i < |items| {
      EligibleUnfolded(items, eligible, i);
      EligibleItemsAreThose(items, eligible, i + 1, p);
      if k :| i <= k < |items| && items[k] == p {
        assert k == i || i + 1 <= k;
      }
    }
  }

  lemma {:induction false} ReversedAppend(items: seq<nat>, last: nat)
    ensures Reversed(items + [last]) == [last] + Reversed(items)
  {
    if items != [] {
      assert (items + [last])[1..] == items[1..] + [last];
      ReversedAppend(items[1..], last);
    }
  }

  // Looking back from j finds the last eligible item before it.
  lemma {:induction false} LastEligibleBefore(items: seq<nat>, eligible: set<nat>, i: nat, j: nat)
    requires i < j <= |items| && items[i] in eligible && forall k | i < k < j :: items[k] !in eligible
    ensures FirstEligible(Reversed(items[..j]), eligible) == Some(items[i])
    decreases j
  {
    assert items[..j] == items[..j - 1] + [items[j - 1]];
    ReversedAppend(items[..j - 1], items[j - 1]);
    if i < j - 1 {
      assert ([items[j - 1]] + Reversed(items[..j - 1]))[1..] == Reversed(items[..j - 1]);
      LastEligibleBefore(items, eligible, i, j - 1);
    }
  }

  // From an eligible product, PREVIOUS undoes NEXT.
  lemma PreviousUndoesNext(items: seq<nat>, eligible: set<nat>, current: nat)
    requires Distinct(items) && current in items && current in eligible
    ensures var next := Neighbour(items, eligible, Some(current), true);
            next.Some? ==> Neighbour(items, eligible, next, false) == Some(current)
  {
    var i :| 0 <= i < |items| && items[i] == current;
    IndexOfAt(items, i);
    var j := FirstEligibleFrom(items, eligible, i + 1);
    if j < |items| {
      IndexOfAt(items, j);
      LastEligibleBefore(items, eligible, i, j);
    }
  }

  // After the first n eligible items comes the next of them, if there is one.
  lemma {:induction false} NextOfEligible(items: seq<nat>, eligible: set<nat>, current: Option<nat>, n: nat)
    requires Distinct(items) && n <= |EligibleFrom(items, eligible, 0)|
    requires current == if n == 0 then None else Some(EligibleFrom(items, eligible, 0)[n - 1])
    ensures var all := EligibleFrom(items, eligible, 0);
            Neighbour(items, eligible, current, true) == if n < |all| then Some(all[n]) else None
  {
    if n == 0 {
      IndexOfNone(items);
      NextOfEligibleFrom(items, eligible, 0, None, 0);
    } else {
      NextOfEligibleFrom(items, eligible, 0, current, n);
    }
  }

  lemma {:induction false} NextOfEligibleFrom(items: seq<nat>, eligible: set<nat>, i: nat, current: Option<nat>, n: nat)
    requires Distinct(items) && i <= |items| && n <= |EligibleFrom(items, eligible, i)|
    requires if n == 0 then IndexOf(items, current) + 1 == i
             else current == Some(EligibleFrom(items, eligible, i)[n - 1])
    ensures var all := EligibleFrom(items, eligible, i);
            Neighbour(items, eligible, current, true) == if n < |all| then Some(all[n]) else None
    decreases n
  {
    var j := FirstEligibleFrom(items, eligible, i);
    if n > 0 {
      if n == 1 {
        IndexOfAt(items, j);
      }
      NextOfEligibleFrom(items, eligible, j + 1, current, n - 1);
    }
  }

  // The eligible items are as distinct as the list.
  lemma {:induction false} EligibleDiffer(items: seq<nat>, eligible: set<nat>, i: nat, a: nat, b: nat)
    requires Distinct(items) && a < b < |EligibleFrom(items, eligible, i)|
    ensures EligibleFrom(items, eligible, i)[a] != EligibleFrom(items, eligible, i)[b]
    decreases |items| - i
  {
    var rest := EligibleFrom(items, eligible, i + 1);
    EligibleUnfolded(items, eligible, i);
    if items[i] !in eligible {
      EligibleDiffer(items, eligible, i + 1, a, b);
    } else if a > 0 {
      EligibleDiffer(items, eligible, i + 1, a - 1, b - 1);
    } else {
      EligibleItemsAreThose(items, eligible, i + 1, rest[b - 1]);
    }
  }

  /// Neighbours by position

  // The current product is at i, or none is shown and i is -1.
  predicate Position(items: seq<nat>, current: Option<nat>, i: int) {
    if current.None? then i == -1 else 0 <= i < |items| && items[i] == current.value
  }

  predicate FirstAfter(items: seq<nat>, eligible: set<nat>, i: int, j: int) {
    -1 <= i < j < |items| && items[j] in eligible && forall k | i < k < j :: items[k] !in eligible
  }

  predicate LastBefore(items: seq<nat>, eligible: set<nat>, i: int, j: int) {
    0 <= j < i <= |items| && items[j] in eligible && forall k | j < k < i :: items[k] !in eligible
  }

  lemma PositionIsIndex(items: seq<nat>, current: Option<nat>, i: int)
    requires Distinct(items) && Position(items, current, i)
    ensures IndexOf(items, current) == i
  {
    if current.None? {
      IndexOfNone(items);
    } else {
      IndexOfAt(items, i);
    }
  }

  // Forward is the first eligible product after the current one.
  lemma ForwardIsFirstAfter(items: seq<nat>, eligible: set<nat>, current: Option<nat>, i: int)
    requires Distinct(items) && Position(items, current, i)
    ensures forall j | FirstAfter(items, eligible, i, j) :: Neighbour(items, eligible, current, true) == Some(items[j])
    ensures Neighbour(items, eligible, current, true).None? <==> forall j :: !FirstAfter(items, eligible, i, j)
  {
    PositionIsIndex(items, current, i);
    var j := FirstEligibleFrom(items, eligible, i + 1);
    if j < |items| {
      assert FirstAfter(items, eligible, i, j);
    }
  }

  // Backward is the last eligible product before it, or of the list.
  lemma BackwardIsLastBefore(items: seq<nat>, eligible: set<nat>, current: Option<nat>, i: int)
    requires Distinct(items) && Position(items, current, i)
    ensures var n := if current.None? then |items| else i;
            && (forall j | LastBefore(items, eligible, n, j) ::
                  Neighbour(items, eligible, current, false) == Some(items[j]))
            && (Neighbour(items, eligible, current, false).None? <==> forall j :: !LastBefore(items, eligible, n, j))
  {
    PositionIsIndex(items, current, i);
    var n := if current.None? then |items| else i;
    assert items[..|items|] == items;
    forall j | LastBefore(items, eligible, n, j) ensures Neighbour(items, eligible, current, false) == Some(items[j]) {
      LastEligibleBefore(items, eligible, j, n);
    }
    PreviousIsListed(items[..n], eligible);
    if Neighbour(items, eligible, current, false).Some? {
      var p := Neighbour(items, eligible, current, false).value;
      var k :| 0 <= k < n && items[..n][k] == p;
      var j := LastEligible(items, eligible, k, n);
    }
  }

  // From an eligible position to the last one before n.
  lemma {:induction false} LastEligible(items: seq<nat>, eligible: set<nat>, k: int, n: int) returns (j: int)
    requires 0 <= k < n <= |items| && items[k] in eligible
    ensures LastBefore(items, eligible, n, j)
    decreases n - k
  {
    if m :| k < m < n && items[m] in eligible {
      j := LastEligible(items, eligible, m, n);
    } else {
      j := k;
    }
  }

  lemma {:induction false} FirstIsMember(items: seq<nat>, eligible: set<nat>)
    ensures FirstEligible(items, eligible).Some? ==>
              FirstEligible(items, eligible).value in items && FirstEligible(items, eligible).value in eligible
  {
    if items != [] {
      FirstIsMember(items[1..], eligible);
    }
  }

  lemma {:induction false} ReversedMembers(items: seq<nat>, p: nat)
    ensures p in Reversed(items) <==> p in items
  {
    if items != [] {
      ReversedMembers(items[1..], p);
    }
  }

  lemma NeighbourIsListed(items: seq<nat>, eligible: set<nat>, current: Option<nat>, forward: bool)
    ensures var p := Neighbour(items, eligible, current, forward); p.Some? ==> p.value in items && p.value in eligible
  {
    BesideIsListed(items, eligible, IndexOf(items, current), forward);
  }

  lemma BesideIsListed(items: seq<nat>, eligible: set<nat>, index: int, forward: bool)
    requires -1 <= index < |items|
    ensures var p := Beside(items, eligible, index, forward); p.Some? ==> p.value in items && p.value in eligible
  {
    if forward {
      FirstIsMember(items[index + 1..], eligible);
    } else {
      PreviousIsListed(if index < 0 then items else items[..index], eligible);
    }
  }

  lemma PreviousIsListed(before: seq<nat>, eligible: set<nat>)
    ensures var p := FirstEligible(Reversed(before), eligible); p.Some? ==> p.value in before && p.value in eligible
  {
    FirstIsMember(Reversed(before), eligible);
    var p := FirstEligible(Reversed(before), eligible);
    if p.Some? {
      ReversedMembers(before, p.value);
    }
  }
}
