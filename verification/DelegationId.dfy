/** Delegation identifiers: printing the four parts and parsing them back. */
module DelegationId {
  import opened Decimal

  const NONE := "none"

  datatype Parts = Parts(node: string, target: string, ordinal: Option<nat>, issuedAt: int)

  datatype Parsed = Valid(parts: Parts) | Invalid

  function PrintOrdinal(o: Option<nat>): string {
    if o.None? then NONE else PrintNat(o.value)
  }

  /** `compute_delegation_id`. */
  function Compute(p: Parts): string {
    p.node + ['|'] + (p.target + ['|'] + (PrintOrdinal(p.ordinal) + ['|'] + PrintInt(p.issuedAt)))
  }

  /** `str::split('|')`. */
  function Split(s: string): (parts: seq<string>)
    ensures |parts| >= 1
  {
    if s == [] then [[]]
    else
      var rest := Split(s[1..]);
      if s[0] == '|' then [[]] + rest else [[s[0]] + rest[0]] + rest[1..]
  }

  function ParseOrdinal(s: string): Option<Option<nat>> {
    if s == NONE then Some(None)
    else match ParseU32(s)
      case None => None
      case Some(n) => Some(Some(n))
  }

  /** `parse_delegation_id`. */
  function Parse(id: string): Parsed {
    var parts := Split(id);
    if |parts| != 4 then Invalid
    else match ParseOrdinal(parts[2])
      case None => Invalid
      case Some(ordinal) =>
        match ParseI64(parts[3])
        case None => Invalid
        case Some(issuedAt) => Valid(Parts(parts[0], parts[1], ordinal, issuedAt))
  }

  /** The parts the source's types allow. */
  predicate Typed(p: Parts) {
    && (p.ordinal.Some? ==> p.ordinal.value <= U32_MAX)
    && I64_MIN <= p.issuedAt <= I64_MAX
  }

  lemma {:induction false} SplitPlain(a: string)
    requires '|' !in a
    ensures Split(a) == [a]
  {
    if a != [] {
      SplitPlain(a[1..]);
      assert a == [a[0]] + a[1..];
    }
  }

  lemma {:induction false} SplitFirst(a: string, b: string)
    requires '|' !in a
    ensures Split(a + ['|'] + b) == [a] + Split(b)
  {
    if a == [] {
      assert (a + ['|'] + b)[1..] == b;
    } else {
      SplitFirst(a[1..], b);
      assert (a + ['|'] + b)[1..] == a[1..] + ['|'] + b;
      assert a == [a[0]] + a[1..];
    }
  }

  /** Splitting yields one part more than there are separators. */
  lemma {:induction false} SplitLength(a: string, b: string)
    ensures |Split(a + b)| == |Split(a)| + |Split(b)| - 1
  {
    if a == [] {
      assert a + b == b;
    } else {
      SplitLength(a[1..], b);
      assert (a + b)[1..] == a[1..] + b;
    }
  }

  lemma {:induction false} SplitSeparated(a: string)
    ensures |Split(a)| == 1 <==> '|' !in a
  {
    if a != [] {
      SplitSeparated(a[1..]);
      assert a == [a[0]] + a[1..];
    }
  }

  lemma OrdinalRoundTrip(o: Option<nat>)
    requires o.Some? ==> o.value <= U32_MAX
    ensures ParseOrdinal(PrintOrdinal(o)) == Some(o) && '|' !in PrintOrdinal(o)
  {
    if o.Some? {
      U32RoundTrip(o.value);
      assert IsDigit(PrintNat(o.value)[0]) && !IsDigit(NONE[0]);
    }
  }

  lemma SplitCompute(p: Parts)
    requires '|' !in p.node && '|' !in p.target && Typed(p)
    ensures Split(Compute(p)) == [p.node, p.target, PrintOrdinal(p.ordinal), PrintInt(p.issuedAt)]
  {
    OrdinalRoundTrip(p.ordinal);
    var tail := PrintOrdinal(p.ordinal) + ['|'] + PrintInt(p.issuedAt);
    SplitFirst(p.node, p.target + ['|'] + tail);
    SplitFirst(p.target, tail);
    SplitFirst(PrintOrdinal(p.ordinal), PrintInt(p.issuedAt));
    SplitPlain(PrintInt(p.issuedAt));
  }

  lemma ComputeLength(p: Parts)
    ensures |Split(Compute(p))| >= |Split(p.node)| + |Split(p.target)| + 2
  {
    var last := PrintOrdinal(p.ordinal) + ['|'] + PrintInt(p.issuedAt);
    var rest := p.target + ['|'] + last;
    Joined(PrintOrdinal(p.ordinal), PrintInt(p.issuedAt));
    Joined(p.target, last);
    Joined(p.node, rest);
  }

  lemma Joined(a: string, b: string)
    ensures |Split(a + ['|'] + b)| == |Split(a)| + |Split(b)|
  {
    SplitLength(a, ['|'] + b);
    assert a + (['|'] + b) == a + ['|'] + b;
    assert (['|'] + b)[1..] == b;
  }

  /** Parsing a computed identifier returns its parts exactly when neither id contains the separator. */
  lemma RoundTrip(p: Parts)
    requires Typed(p)
    ensures Parse(Compute(p)) == Valid(p) <==> '|' !in p.node && '|' !in p.target
  {
    if '|' !in p.node && '|' !in p.target {
      SplitCompute(p);
      OrdinalRoundTrip(p.ordinal);
      I64RoundTrip(p.issuedAt);
    } else {
      SplitSeparated(p.node);
      SplitSeparated(p.target);
      ComputeLength(p);
    }
  }

  /** Distinct parts get distinct identifiers. */
  lemma ComputeInjective(p: Parts, q: Parts)
    requires Typed(p) && '|' !in p.node && '|' !in p.target
    requires Typed(q) && '|' !in q.node && '|' !in q.target
    requires Compute(p) == Compute(q)
    ensures p == q
  {
    RoundTrip(p);
    RoundTrip(q);
  }

  /** With a separator inside an id, two different delegations share an identifier. */
  lemma SeparatorCollides()
    ensures var p, q := Parts("a|b", "c", None, 0), Parts("a", "b|c", None, 0);
            p != q && Compute(p) == Compute(q)
  {
    assert "a|b" + ['|'] + ("c" + ['|'] + (NONE + ['|'] + PrintInt(0)))
        == "a" + ['|'] + ("b|c" + ['|'] + (NONE + ['|'] + PrintInt(0)));
  }
}
