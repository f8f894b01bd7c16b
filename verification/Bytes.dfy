/** Byte strings in the order the key-value store keeps its keys.

A Rust string or key is modelled by its UTF-8 bytes, one `char` per byte, so that
comparison, concatenation and prefix tests are the bytewise ones of the source.
*/
module Bytes {

  /** Strict lexicographic order. */
  predicate Less(a: string, b: string) {
    if a == [] then b != []
    else if b == [] then false
    else a[0] < b[0] || (a[0] == b[0] && Less(a[1..], b[1..]))
  }

  predicate AtMost(a: string, b: string) {
    a == b || Less(a, b)
  }

  lemma {:induction false} LessIrreflexive(a: string)
    ensures !Less(a, a)
  {
    if a != [] {
      LessIrreflexive(a[1..]);
    }
  }

  lemma {:induction false} LessTransitive(a: string, b: string, c: string)
    requires Less(a, b) && Less(b, c)
    ensures Less(a, c)
  {
    if a != [] && a[0] == b[0] && b[0] == c[0] {
      LessTransitive(a[1..], b[1..], c[1..]);
    }
  }

  lemma {:induction false} LessTotal(a: string, b: string)
    ensures a == b || Less(a, b) || Less(b, a)
  {
    if a != [] && b != [] && a[0] == b[0] {
      LessTotal(a[1..], b[1..]);
      assert a == [a[0]] + a[1..] && b == [b[0]] + b[1..];
    }
  }

  lemma LessAsymmetric(a: string, b: string)
    requires Less(a, b)
    ensures !Less(b, a) && a != b
  {
    LessIrreflexive(a);
    if Less(b, a) {
      LessTransitive(a, b, a);
    }
  }

  lemma {:induction false} LeastWitness(s: set<string>) returns (k: string)
    requires s != {}
    ensures k in s
    ensures forall x :: x in s ==> AtMost(k, x)
    decreases |s|
  {
    var a :| a in s;
    k := a;
    var rest := s - {a};
    assert s == {a} + rest;
    if rest != {} {
      var b := LeastWitness(rest);
      LessTotal(a, b);
      if Less(a, b) {
        forall x | x in rest
          ensures AtMost(a, x)
        {
          if b != x {
            LessTransitive(a, b, x);
          }
        }
      } else {
        k := b;
      }
    }
  }

  lemma LeastExists(s: set<string>)
    requires s != {}
    ensures exists k :: k in s && forall x :: x in s ==> AtMost(k, x)
  {
    var k := LeastWitness(s);
  }

  /** The first key of a nonempty set of keys. */
  function Least(s: set<string>): (k: string)
    requires s != {}
    ensures k in s
    ensures forall x :: x in s ==> AtMost(k, x)
  {
    LeastExists(s);
    assert forall a, b :: a in s && b in s && Less(a, b) ==> !Less(b, a) by {
      forall a, b | a in s && b in s && Less(a, b)
        ensures !Less(b, a)
      {
        LessAsymmetric(a, b);
      }
    }
    var k :| k in s && forall x :: x in s ==> AtMost(k, x);
    k
  }

  /** The keys in ascending order: what a full scan of a table yields. */
  function Ascending(s: set<string>): seq<string>
    decreases |s|
  {
    if s == {} then []
    else
      var k := Least(s);
      [k] + Ascending(s - {k})
  }

  ghost predicate StrictlyAscending(xs: seq<string>) {
    forall i, j :: 0 <= i < j < |xs| ==> Less(xs[i], xs[j])
  }

  lemma {:induction false} AscendingElements(s: set<string>)
    ensures forall x :: x in Ascending(s) <==> x in s
    ensures multiset(Ascending(s)) == multiset(s)
    ensures |Ascending(s)| == |s|
    decreases |s|
  {
    if s != {} {
      var k := Least(s);
      AscendingElements(s - {k});
      assert s == {k} + (s - {k});
    }
  }

  lemma {:induction false} AscendingSorted(s: set<string>)
    ensures StrictlyAscending(Ascending(s))
    decreases |s|
  {
    if s != {} {
      var k := Least(s);
      AscendingSorted(s - {k});
      AscendingElements(s - {k});
      var tail := Ascending(s - {k});
      forall j | 0 <= j < |tail|
        ensures Less(k, tail[j])
      {
        assert tail[j] in s - {k};
      }
    }
  }

  /** A strictly ascending sequence is determined by its elements. */
  lemma {:induction false} AscendingUnique(xs: seq<string>, s: set<string>)
    requires StrictlyAscending(xs)
    requires forall x :: x in xs <==> x in s
    ensures xs == Ascending(s)
    decreases |s|
  {
    if xs == [] {
      assert s == {};
    } else {
      assert xs[0] in s;
      var k := Least(s);
      assert xs[0] == k by {
        var i :| 0 <= i < |xs| && xs[i] == k;
        if i != 0 {
          LessAsymmetric(xs[0], xs[i]);
        }
      }
      forall x
        ensures x in xs[1..] <==> x in s - {k}
      {
        if x in xs[1..] {
          var j :| 0 <= j < |xs| - 1 && xs[1..][j] == x;
          LessAsymmetric(xs[0], xs[j + 1]);
        }
        if x in s - {k} {
          assert x in xs;
        }
      }
      AscendingUnique(xs[1..], s - {k});
    }
  }

  /** Two strings that start with the same prefix compare like their remainders. */
  lemma {:induction false} LessPrefix(p: string, a: string, b: string)
    ensures Less(p + a, p + b) <==> Less(a, b)
  {
    if p == [] {
      assert p + a == a && p + b == b;
    } else {
      LessPrefix(p[1..], a, b);
      assert (p + a)[1..] == p[1..] + a && (p + b)[1..] == p[1..] + b;
    }
  }

  /** Strings of equal length compare on the prefix first and on the last byte last. */
  lemma {:induction false} LessLast(a: string, b: string, c: char, d: char)
    requires |a| == |b|
    ensures Less(a + [c], b + [d]) <==> Less(a, b) || (a == b && c < d)
  {
    if a == [] {
      assert a + [c] == [c] && b + [d] == [d];
    } else {
      LessLast(a[1..], b[1..], c, d);
      assert (a + [c])[1..] == a[1..] + [c] && (b + [d])[1..] == b[1..] + [d];
      assert a == [a[0]] + a[1..] && b == [b[0]] + b[1..];
    }
  }
}
