/** `distribute_replicas`: largest-remainder apportionment of a total over roles. */
module Apportion {
  import opened Arithmetic
  import opened Bytes
  import opened Sums
  import opened Sorting

  type Counts = map<string, nat>

  /** The count of a role, 0 when the role is absent. */
  function At(m: Counts): string -> nat {
    (k: string) => if k in m then m[k] else 0
  }

  function Total(m: Counts): nat {
    SumOver(m.Keys, At(m))
  }

  /** The total is what the roles' counts add up to. */
  lemma TotalAdds(m: Counts, role: string, n: nat)
    ensures Total(map[]) == 0
    ensures role !in m ==> Total(m[role := n]) == Total(m) + n
  {
    if role !in m {
      var more := m[role := n];
      SumOverRemove(more.Keys, role, At(more));
      assert more.Keys - {role} == m.Keys;
      SumOverCongruence(m.Keys, At(more), At(m));
    }
  }

  /** A role's exact share is `base` and `remainder` / total. */
  datatype Part = Part(role: string, count: nat, base: nat, remainder: nat)

  /** Largest remainder first, ties by ascending role name. */
  predicate Before(a: Part, b: Part) {
    a.remainder > b.remainder || (a.remainder == b.remainder && AtMost(a.role, b.role))
  }

  function PartOf(m: Counts, desired: nat, total: nat, role: string): Part
    requires total > 0
  {
    var numerator := desired * At(m)(role);
    Part(role, At(m)(role), numerator / total, numerator % total)
  }

  /** What largest-remainder apportionment promises, stated without the algorithm: the counts sum to
  the desired total, every role gets the floor of its share or, if its share is not whole, the
  ceiling, and the roles rounded up are the ones that come first. */
  ghost predicate Apportioned(m: Counts, desired: nat, out: Counts) {
    && out.Keys == m.Keys
    && Total(m) > 0
    && Total(out) == desired
    && (forall r :: r in m ==> FloorOrCeiling(PartOf(m, desired, Total(m), r), out[r]))
    && (forall r, q :: r in m && q in m && RoundedUp(m, desired, out, r) && !RoundedUp(m, desired, out, q)
                       ==> Before(PartOf(m, desired, Total(m), r), PartOf(m, desired, Total(m), q)))
  }

  predicate FloorOrCeiling(p: Part, n: nat) {
    n == p.base || (p.remainder > 0 && n == p.base + 1)
  }

  ghost predicate RoundedUp(m: Counts, desired: nat, out: Counts, r: string)
    requires r in out && Total(m) > 0
  {
    out[r] == PartOf(m, desired, Total(m), r).base + 1
  }

  // ----- consequences of the promise -----

  lemma ShareBounds(desired: nat, count: nat, total: nat)
    requires total > 0
    ensures (desired * count) / total * total + (desired * count) % total == desired * count
    ensures (desired * count) % total < total
  {
  }

  lemma DownShare(desired: nat, count: nat, total: nat, base: nat, remainder: nat)
    requires total > 0 && desired <= total
    requires base * total + remainder == desired * count && remainder < total
    ensures base <= count
    ensures remainder > 0 ==> base + 1 <= count
  {
    MulOrder(desired, total, count);
    MulOrder(count, base, total);
  }

  lemma UpShare(desired: nat, count: nat, total: nat, base: nat, remainder: nat)
    requires total > 0 && desired >= total
    requires base * total + remainder == desired * count && remainder < total
    ensures base >= count
  {
    MulOrder(total, desired, count);
    MulOrder(base, count, total);
  }

  /** Scaling down never raises a role, scaling up never lowers one, and a role at zero stays there:
  this is why scaling up need not ask the disruption guard. */
  lemma ApportionedMonotone(m: Counts, desired: nat, out: Counts, r: string)
    requires Apportioned(m, desired, out) && r in m
    ensures desired <= Total(m) ==> out[r] <= m[r]
    ensures desired >= Total(m) ==> out[r] >= m[r]
    ensures m[r] == 0 ==> out[r] == 0
  {
    assert FloorOrCeiling(PartOf(m, desired, Total(m), r), out[r]);
    ShareMonotone(desired, m[r], Total(m), out[r]);
  }

  lemma ShareMonotone(desired: nat, count: nat, total: nat, n: nat)
    requires total > 0
    requires FloorOrCeiling(Part("", count, (desired * count) / total, (desired * count) % total), n)
    ensures desired <= total ==> n <= count
    ensures desired >= total ==> n >= count
    ensures count == 0 ==> n == 0
  {
    ShareBounds(desired, count, total);
    var base, remainder := (desired * count) / total, (desired * count) % total;
    if desired <= total {
      DownShare(desired, count, total, base, remainder);
    }
    if desired >= total {
      UpShare(desired, count, total, base, remainder);
    }
    if count == 0 {
      assert desired * count == 0;
    }
  }

  /** A role one apportionment rounds up and another does not is balanced by one the other way. */
  lemma Balanced(m: Counts, a: Counts, b: Counts, r: string) returns (q: string)
    requires a.Keys == b.Keys == m.Keys && Total(a) == Total(b) && r in m && a[r] > b[r]
    ensures q in m && a[q] < b[q]
  {
    if forall x :: x in m ==> b[x] <= a[x] {
      SumOverStrict(m.Keys, r, At(b), At(a));
    }
    q :| q in m && a[q] < b[q];
  }

  /** The promise determines the result: there is one apportionment. */
  lemma ApportionedUnique(m: Counts, desired: nat, a: Counts, b: Counts)
    requires Apportioned(m, desired, a) && Apportioned(m, desired, b)
    ensures a == b
  {
    forall r | r in m
      ensures a[r] <= b[r]
    {
      NotAbove(m, desired, a, b, r);
    }
    forall r | r in m
      ensures b[r] <= a[r]
    {
      NotAbove(m, desired, b, a, r);
    }
  }

  lemma NotAbove(m: Counts, desired: nat, a: Counts, b: Counts, r: string)
    requires Apportioned(m, desired, a) && Apportioned(m, desired, b) && r in m
    ensures a[r] <= b[r]
  {
    if a[r] > b[r] {
      var q := Balanced(m, a, b, r);
      var x, y := PartOf(m, desired, Total(m), r), PartOf(m, desired, Total(m), q);
      assert FloorOrCeiling(x, a[r]) && FloorOrCeiling(x, b[r]) && FloorOrCeiling(y, a[q]) && FloorOrCeiling(y, b[q]);
      assert RoundedUp(m, desired, a, r) && !RoundedUp(m, desired, a, q);
      assert RoundedUp(m, desired, b, q) && !RoundedUp(m, desired, b, r);
      assert Before(x, y) && Before(y, x);
      if q != r {
        LessAsymmetricEither(q, r);
      }
    }
  }

  lemma LessAsymmetricEither(a: string, b: string)
    requires a != b
    ensures !(AtMost(a, b) && AtMost(b, a))
  {
    if Less(a, b) {
      LessAsymmetric(a, b);
    }
  }

  // ----- the ordering -----

  /** A share is rounded up exactly when the count exceeds it. */
  lemma ShareRounds(numerator: nat, total: nat, n: nat)
    requires total > 0
    requires n == numerator / total || (numerator % total > 0 && n == numerator / total + 1)
    ensures n * total > numerator <==> n == numerator / total + 1
    ensures n * total < numerator + total && numerator < (n + 1) * total
  {
    var q := numerator / total;
    assert numerator == q * total + numerator % total;
    assert (q + 1) * total == q * total + total;
    assert (q + 2) * total == (q + 1) * total + total;
  }

  lemma ShareOf(m: Counts, desired: nat, out: Counts, r: string)
    requires Apportioned(m, desired, out) && r in m
    ensures r in out && Total(m) > 0
    ensures out[r] * Total(m) < desired * m[r] + Total(m) && desired * m[r] < (out[r] + 1) * Total(m)
    ensures out[r] * Total(m) > desired * m[r] <==> RoundedUp(m, desired, out, r)
  {
    hide Total, Before;
    var numerator, total := desired * m[r], Total(m);
    assert FloorOrCeiling(PartOf(m, desired, total, r), out[r]);
    ShareRounds(numerator, total, out[r]);
  }

  lemma LargerFirst(m: Counts, desired: nat, out: Counts, r: string, q: string)
    requires Apportioned(m, desired, out) && r in m && q in m
    requires RoundedUp(m, desired, out, r) && !RoundedUp(m, desired, out, q)
    ensures Total(m) > 0
    ensures var left, right := (desired * m[r]) % Total(m), (desired * m[q]) % Total(m);
            left > right || (left == right && AtMost(r, q))
  {
    hide Total, FloorOrCeiling, RoundedUp;
    assert Before(PartOf(m, desired, Total(m), r), PartOf(m, desired, Total(m), q));
  }

  /** The promise in numbers: the counts add up to the desired total, each is less than one off its exact share, and the
  shares rounded up are those with the largest remainders, ties in the order of the role names. */
  lemma ApportionedMeans(m: Counts, desired: nat, out: Counts, r: string, q: string)
    requires Apportioned(m, desired, out) && r in m && q in m
    ensures r in out && q in out && Total(m) > 0 && Total(out) == desired
    ensures out[r] * Total(m) < desired * m[r] + Total(m) && desired * m[r] < (out[r] + 1) * Total(m)
    ensures out[r] * Total(m) > desired * m[r] && out[q] * Total(m) <= desired * m[q] ==>
              var left, right := (desired * m[r]) % Total(m), (desired * m[q]) % Total(m);
              left > right || (left == right && AtMost(r, q))
  {
    assert Total(out) == desired;
    hide Total, Apportioned, RoundedUp, AtMost;
    ShareOf(m, desired, out, r);
    ShareOf(m, desired, out, q);
    if RoundedUp(m, desired, out, r) && !RoundedUp(m, desired, out, q) {
      LargerFirst(m, desired, out, r, q);
    }
  }

  lemma BeforeIsTotalPreorder()
    ensures TotalPreorder(Before)
  {
    forall a, b
      ensures Before(a, b) || Before(b, a)
    {
      LessTotal(a.role, b.role);
    }
    forall a, b, c | Before(a, b) && Before(b, c)
      ensures Before(a, c)
    {
      if a.remainder == b.remainder == c.remainder && a.role != b.role && b.role != c.role {
        LessTransitive(a.role, b.role, c.role);
      }
    }
  }

  // ----- sums over parts -----

  function Base(): Part -> nat {
    (p: Part) => p.base
  }

  function Remainder(): Part -> nat {
    (p: Part) => p.remainder
  }

  function Count(): Part -> nat {
    (p: Part) => p.count
  }

  ghost predicate PartsValid(parts: seq<Part>, desired: nat, total: nat) {
    forall i :: 0 <= i < |parts| ==>
      && parts[i].base * total + parts[i].remainder == desired * parts[i].count
      && parts[i].remainder < total
  }

  lemma Distribute3(a: nat, b: nat, c: nat, d: nat, x: nat, y: nat, total: nat, desired: nat)
    requires a * total + b == desired * x
    requires c * total + d == desired * y
    ensures (a + c) * total + (b + d) == desired * (x + y)
  {
  }

  lemma {:induction false} SharesAddUp(parts: seq<Part>, desired: nat, total: nat)
    requires PartsValid(parts, desired, total)
    ensures Sum(parts, Base()) * total + Sum(parts, Remainder()) == desired * Sum(parts, Count())
  {
    if parts != [] {
      SharesAddUp(parts[1..], desired, total);
      Distribute3(parts[0].base, parts[0].remainder, Sum(parts[1..], Base()), Sum(parts[1..], Remainder()),
                  parts[0].count, Sum(parts[1..], Count()), total, desired);
    }
  }

  lemma {:induction false} RemaindersBounded(parts: seq<Part>, total: nat)
    requires forall i :: 0 <= i < |parts| ==> parts[i].remainder < total
    ensures Sum(parts, Remainder()) <= |parts| * (total - 1)
  {
    if parts != [] {
      RemaindersBounded(parts[1..], total);
      assert |parts| * (total - 1) == (total - 1) + (|parts| - 1) * (total - 1);
    }
  }

  lemma {:induction false} ZeroRemainders(parts: seq<Part>)
    requires forall i :: 0 <= i < |parts| ==> parts[i].remainder == 0
    ensures Sum(parts, Remainder()) == 0
  {
    if parts != [] {
      ZeroRemainders(parts[1..]);
    }
  }

  lemma FewerThan(k: nat, shortfall: nat, total: nat)
    requires k < shortfall && total > 0
    ensures k * (total - 1) < shortfall * total
  {
    MulOrder(k + 1, shortfall, total);
    Distributes(k, total);
  }

  lemma Distributes(k: nat, total: nat)
    requires total > 0
    ensures k * (total - 1) == k * total - k
    ensures (k + 1) * total == k * total + total
  {
  }

  /** The replicas left over go to roles whose share is not whole, and there are enough of them. */
  lemma LeftoverRoles(order: seq<Part>, total: nat, shortfall: nat)
    requires total > 0 && Sorted(order, Before)
    requires forall i :: 0 <= i < |order| ==> order[i].remainder < total
    requires Sum(order, Remainder()) == shortfall * total
    ensures shortfall <= |order|
    ensures forall i :: 0 <= i < shortfall ==> order[i].remainder > 0
  {
    RemaindersBounded(order, total);
    if |order| < shortfall {
      FewerThan(|order|, shortfall, total);
    }
    forall k | 0 <= k < shortfall
      ensures order[k].remainder > 0
    {
      if order[k].remainder == 0 {
        assert order == order[..k] + order[k..];
        SumAppend(order[..k], order[k..], Remainder());
        RemaindersBounded(order[..k], total);
        forall i | 0 <= i < |order[k..]|
          ensures order[k..][i].remainder == 0
        {
          assert i > 0 ==> Before(order[k], order[k + i]);
        }
        ZeroRemainders(order[k..]);
        FewerThan(k, shortfall, total);
      }
    }
  }

  /** Adding one to a role adds one to the total. */
  lemma TotalBump(m: Counts, r: string)
    requires r in m
    ensures Total(m[r := m[r] + 1]) == Total(m) + 1
  {
    var m' := m[r := m[r] + 1];
    assert m'.Keys == m.Keys;
    SumOverRemove(m.Keys, r, At(m));
    SumOverRemove(m.Keys, r, At(m'));
    SumOverCongruence(m.Keys - {r}, At(m), At(m'));
  }

  // ----- the algorithm -----

  /** The fractions of the roles listed so far. */
  ghost predicate PartsFor(m: Counts, desired: nat, total: nat, roles: seq<string>, parts: seq<Part>)
    requires total > 0
  {
    && |parts| == |roles|
    && forall i :: 0 <= i < |roles| ==> parts[i] == PartOf(m, desired, total, roles[i])
  }

  lemma {:induction false} PartsCount(m: Counts, desired: nat, total: nat, roles: seq<string>, parts: seq<Part>)
    requires total > 0 && PartsFor(m, desired, total, roles, parts)
    ensures Sum(parts, Count()) == Sum(roles, At(m))
  {
    if parts != [] {
      PartsCount(m, desired, total, roles[1..], parts[1..]);
    }
  }

  lemma PartsShares(m: Counts, desired: nat, total: nat, roles: seq<string>, parts: seq<Part>)
    requires total > 0 && PartsFor(m, desired, total, roles, parts)
    ensures PartsValid(parts, desired, total)
  {
    forall i | 0 <= i < |parts|
      ensures parts[i].base * total + parts[i].remainder == desired * parts[i].count && parts[i].remainder < total
    {
      ShareBounds(desired, parts[i].count, total);
    }
  }

  lemma ShortfallOfShares(given: nat, remainders: nat, desired: nat, total: nat)
    requires total > 0 && given * total + remainders == desired * total
    ensures given <= desired
    ensures (desired - given) * total == remainders
  {
    MulOrder(desired, given, total);
  }

  /** What is left after rounding every share down. */
  lemma Shortfall(m: Counts, desired: nat, parts: seq<Part>)
    requires Total(m) > 0 && PartsFor(m, desired, Total(m), Ascending(m.Keys), parts)
    ensures Sum(parts, Base()) <= desired
    ensures (desired - Sum(parts, Base())) * Total(m) == Sum(parts, Remainder())
  {
    var total := Total(m);
    PartsShares(m, desired, total, Ascending(m.Keys), parts);
    PartsCount(m, desired, total, Ascending(m.Keys), parts);
    SharesAddUp(parts, desired, total);
    ShortfallOfShares(Sum(parts, Base()), Sum(parts, Remainder()), desired, total);
  }

  /** The roles rounded down. */
  function Floors(parts: seq<Part>): Counts {
    if parts == [] then map[]
    else Floors(parts[..|parts| - 1])[parts[|parts| - 1].role := parts[|parts| - 1].base]
  }

  lemma {:induction false} FloorsOf(m: Counts, desired: nat, total: nat, roles: seq<string>, parts: seq<Part>)
    requires total > 0 && PartsFor(m, desired, total, roles, parts) && StrictlyAscending(roles)
    ensures forall r :: r in Floors(parts) <==> r in roles
    ensures forall i :: 0 <= i < |roles| ==> roles[i] in Floors(parts) && Floors(parts)[roles[i]] == parts[i].base
  {
    if parts != [] {
      var n := |parts| - 1;
      FloorsOf(m, desired, total, roles[..n], parts[..n]);
      forall i | 0 <= i < n
        ensures roles[i] != roles[n]
      {
        LessAsymmetric(roles[i], roles[n]);
      }
      assert roles == roles[..n] + [roles[n]];
    }
  }

  lemma {:induction false} SumOfMap(roles: seq<string>, parts: seq<Part>, out: Counts)
    requires |roles| == |parts|
    requires forall i :: 0 <= i < |roles| ==> roles[i] in out && out[roles[i]] == parts[i].base
    ensures Sum(roles, At(out)) == Sum(parts, Base())
  {
    if roles != [] {
      SumOfMap(roles[1..], parts[1..], out);
    }
  }

  ghost predicate DistinctRoles(parts: seq<Part>) {
    forall i, j :: 0 <= i < j < |parts| ==> parts[i].role != parts[j].role
  }

  /** The first `n` parts of the order rounded up, the others down. */
  ghost predicate Awarded(order: seq<Part>, n: nat, out: Counts) {
    forall i :: 0 <= i < |order| ==>
      order[i].role in out && out[order[i].role] == order[i].base + (if i < n then 1 else 0)
  }

  lemma AwardOne(order: seq<Part>, n: nat, out: Counts)
    requires DistinctRoles(order) && n < |order| && Awarded(order, n, out)
    ensures Awarded(order, n + 1, out[order[n].role := out[order[n].role] + 1])
  {
  }

  /** The order holds the parts of every role, each once. */
  lemma OrderOfParts(m: Counts, desired: nat, total: nat, parts: seq<Part>)
    requires total > 0 && PartsFor(m, desired, total, Ascending(m.Keys), parts)
    ensures var order := Sort(parts, Before);
            && Sorted(order, Before) && |order| == |parts| && DistinctRoles(order)
            && Sum(order, Remainder()) == Sum(parts, Remainder())
            && (forall i :: 0 <= i < |order| ==>
                 order[i].role in m && order[i] == PartOf(m, desired, total, order[i].role))
            && (forall r :: r in m ==> PartOf(m, desired, total, r) in order)
  {
    hide Sort, Sum, Sorted, Before;
    var order := Sort(parts, Before);
    BeforeIsTotalPreorder();
    SortSorted(parts, Before);
    SortPermutes(parts, Before);
    SumPermutation(order, parts, Remainder());
    AscendingElements(m.Keys);
    AscendingSorted(m.Keys);
    var roles := Ascending(m.Keys);
    forall i | 0 <= i < |order|
      ensures order[i].role in m && order[i] == PartOf(m, desired, total, order[i].role)
    {
      assert order[i] in parts;
      var j :| 0 <= j < |parts| && parts[j] == order[i];
      assert roles[j] in m.Keys;
    }
    forall r | r in m
      ensures PartOf(m, desired, total, r) in order
    {
      var j :| 0 <= j < |roles| && roles[j] == r;
      assert parts[j] in parts;
    }
    assert DistinctRoles(parts) by {
      forall i, j | 0 <= i < j < |parts|
        ensures parts[i].role != parts[j].role
      {
        LessAsymmetric(roles[i], roles[j]);
      }
    }
    DistinctPermuted(parts, order);
  }

  /** Distinct roles survive reordering. */
  lemma DistinctPermuted(parts: seq<Part>, order: seq<Part>)
    requires DistinctRoles(parts) && multiset(parts) == multiset(order)
    ensures DistinctRoles(order)
  {
    forall i, j | 0 <= i < j < |order|
      ensures order[i].role != order[j].role
    {
      if order[i].role == order[j].role {
        assert order[i] in multiset(parts) && order[j] in multiset(parts);
        var a :| 0 <= a < |parts| && parts[a] == order[i];
        var b :| 0 <= b < |parts| && parts[b] == order[j];
        assert a == b;
        TwiceInMultiset(order, i, j);
        OnceInMultiset(parts, a);
      }
    }
  }

  lemma AwardedIsApportioned(m: Counts, desired: nat, order: seq<Part>, n: nat, out: Counts)
    requires Total(m) > 0 && Sorted(order, Before)
    requires forall i :: 0 <= i < |order| ==>
               order[i].role in m && order[i] == PartOf(m, desired, Total(m), order[i].role)
    requires forall r :: r in m ==> PartOf(m, desired, Total(m), r) in order
    requires forall i :: 0 <= i < n && i < |order| ==> order[i].remainder > 0
    requires Awarded(order, n, out) && out.Keys == m.Keys && Total(out) == desired
    ensures Apportioned(m, desired, out)
  {
    forall r | r in m
      ensures FloorOrCeiling(PartOf(m, desired, Total(m), r), out[r])
    {
      var i :| 0 <= i < |order| && order[i] == PartOf(m, desired, Total(m), r);
    }
    forall r, q | r in m && q in m && RoundedUp(m, desired, out, r) && !RoundedUp(m, desired, out, q)
      ensures Before(PartOf(m, desired, Total(m), r), PartOf(m, desired, Total(m), q))
    {
      var i :| 0 <= i < |order| && order[i] == PartOf(m, desired, Total(m), r);
      var j :| 0 <= j < |order| && order[j] == PartOf(m, desired, Total(m), q);
      assert i < n && !(j < n);
    }
  }

  lemma FloorsTotal(m: Counts, desired: nat, parts: seq<Part>)
    requires Total(m) > 0 && PartsFor(m, desired, Total(m), Ascending(m.Keys), parts)
    ensures Floors(parts).Keys == m.Keys
    ensures Total(Floors(parts)) == Sum(parts, Base())
    ensures forall r :: r in m ==> Floors(parts)[r] == PartOf(m, desired, Total(m), r).base
  {
    var roles := Ascending(m.Keys);
    AscendingElements(m.Keys);
    AscendingSorted(m.Keys);
    FloorsOf(m, desired, Total(m), roles, parts);
    assert Floors(parts).Keys == m.Keys;
    SumOfMap(roles, parts, Floors(parts));
    forall r | r in m
      ensures Floors(parts)[r] == PartOf(m, desired, Total(m), r).base
    {
      var i :| 0 <= i < |roles| && roles[i] == r;
    }
  }

  lemma {:induction false} SumOfZeros(roles: seq<string>, m: Counts)
    requires forall r :: r in m ==> m[r] == 0
    ensures Sum(roles, At(m)) == 0
  {
    if roles != [] {
      SumOfZeros(roles[1..], m);
    }
  }

  /** Apportioning nothing gives every role nothing. */
  lemma ZeroApportioned(m: Counts, out: Counts)
    requires Total(m) > 0 && out.Keys == m.Keys && forall r :: r in out ==> out[r] == 0
    ensures Apportioned(m, 0, out)
  {
    SumOfZeros(Ascending(out.Keys), out);
    forall r
      ensures PartOf(m, 0, Total(m), r).base == 0
    {
      assert 0 * At(m)(r) == 0;
    }
  }

  /** The base share and remainder of every role, and what the base shares add up to. */
  method CollectParts(current: Counts, desired: nat, total: nat) returns (parts: seq<Part>, given: nat)
    requires total > 0
    ensures PartsFor(current, desired, total, Ascending(current.Keys), parts)
    ensures given == Sum(parts, Base())
  {
    var roles := Ascending(current.Keys);
    parts := [];
    given := 0;
    for i := 0 to |roles|
      invariant PartsFor(current, desired, total, roles[..i], parts)
      invariant given == Sum(parts, Base())
    {
      var part := PartOf(current, desired, total, roles[i]);
      SumAppend(parts, [part], Base());
      given := given + part.base;
      parts := parts + [part];
    }
    assert roles[..|roles|] == roles;
  }

  /** Hand out the shortfall one replica at a time, in order. */
  method HandOut(order: seq<Part>, floors: Counts, shortfall: nat) returns (out: Counts)
    requires DistinctRoles(order) && Awarded(order, 0, floors) && shortfall <= |order|
    ensures Awarded(order, shortfall, out)
    ensures out.Keys == floors.Keys && Total(out) == Total(floors) + shortfall
  {
    out := floors;
    var left := shortfall;
    var i := 0;
    while i < |order|
      invariant 0 <= i <= shortfall && left == shortfall - i
      invariant out.Keys == floors.Keys && Total(out) == Total(floors) + i
      invariant Awarded(order, i, out)
    {
      if left == 0 {
        break;
      }
      AwardOne(order, i, out);
      TotalBump(out, order[i].role);
      out := out[order[i].role := out[order[i].role] + 1];
      left := left - 1;
      i := i + 1;
    }
  }

  /** Everything the hand-out relies on: the order lists every role once with its share, first the
  ones to round up, and the floors leave exactly the shortfall. */
  ghost predicate Ready(m: Counts, desired: nat, order: seq<Part>, floors: Counts, shortfall: nat) {
    && Total(m) > 0 && Sorted(order, Before) && DistinctRoles(order)
    && (forall i :: 0 <= i < |order| ==> order[i].role in m && order[i] == PartOf(m, desired, Total(m), order[i].role))
    && (forall r :: r in m ==> PartOf(m, desired, Total(m), r) in order)
    && shortfall <= |order|
    && (forall i :: 0 <= i < shortfall ==> order[i].remainder > 0)
    && floors.Keys == m.Keys && Awarded(order, 0, floors) && Total(floors) + shortfall == desired
  }

  lemma Prepared(m: Counts, desired: nat, parts: seq<Part>)
    requires Total(m) > 0 && PartsFor(m, desired, Total(m), Ascending(m.Keys), parts)
    ensures Sum(parts, Base()) <= desired
    ensures Ready(m, desired, Sort(parts, Before), Floors(parts), desired - Sum(parts, Base()))
  {
    hide Sort, Sum, Floors, PartsFor, Sorted, DistinctRoles, PartOf, Total, Before;
    var order := Sort(parts, Before);
    Shortfall(m, desired, parts);
    OrderOfParts(m, desired, Total(m), parts);
    FloorsTotal(m, desired, parts);
    RemaindersBelow(m, desired, order);
    LeftoverRoles(order, Total(m), desired - Sum(parts, Base()));
  }

  lemma RemaindersBelow(m: Counts, desired: nat, order: seq<Part>)
    requires Total(m) > 0
    requires forall i :: 0 <= i < |order| ==> order[i] == PartOf(m, desired, Total(m), order[i].role)
    ensures forall i :: 0 <= i < |order| ==> order[i].remainder < Total(m)
  {
    forall i | 0 <= i < |order|
      ensures order[i].remainder < Total(m)
    {
      ShareBounds(desired, order[i].count, Total(m));
    }
  }

  lemma Finished(m: Counts, desired: nat, order: seq<Part>, floors: Counts, shortfall: nat, out: Counts)
    requires Ready(m, desired, order, floors, shortfall)
    requires Awarded(order, shortfall, out) && out.Keys == floors.Keys && Total(out) == Total(floors) + shortfall
    ensures Apportioned(m, desired, out)
  {
    AwardedIsApportioned(m, desired, order, shortfall, out);
  }

  /** `distribute_replicas`. */
  method DistributeReplicas(current: Counts, desired: nat) returns (out: Counts)
    ensures out.Keys == current.Keys
    ensures Total(current) == 0 ==> forall r :: r in out ==> out[r] == 0
    ensures Total(current) > 0 ==> Apportioned(current, desired, out)
  {
    hide Sort, Sum, Floors, PartsFor, Sorted, DistinctRoles, PartOf, Total, Awarded, Before, Apportioned;
    var total := Total(current);
    if total == 0 || desired == 0 {
      out := map r | r in current.Keys :: 0;
      if total > 0 {
        ZeroApportioned(current, out);
      }
    } else {
      var parts, given := CollectParts(current, desired, total);
      Prepared(current, desired, parts);
      var order := Sort(parts, Before);
      out := HandOut(order, Floors(parts), desired - given);
      Finished(current, desired, order, Floors(parts), desired - given, out);
    }
  }
}
