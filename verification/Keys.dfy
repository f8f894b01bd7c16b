/** The keys the state machine formats, and when two of them can collide. */
module Keys {
  import opened Decimal
  import opened Bytes

  function WorkloadKey(tenant: string, workload: string): string {
    tenant + ":" + workload
  }

  function CronKey(tenant: string, cron: string): string {
    "cron:" + tenant + ":" + cron
  }

  function BlockKey(tenant: string): string {
    "tenant:" + tenant
  }

  function AddressKey(tenant: string, service: string, role: string): string {
    "service:" + tenant + ":" + service + ":" + role
  }

  function OrdinalKey(tenant: string, service: string, role: string, ordinal: nat): string {
    tenant + ":" + service + ":" + role + ":" + PrintNat(ordinal)
  }

  /** `u16::to_le_bytes` after the truncating `as u16` cast. */
  function U16Le(n: nat): (r: string)
    ensures |r| == 2
  {
    [(n % 256) as char, (n / 256 % 256) as char]
  }

  /** `u64::to_be_bytes` for a value that fits. */
  function U64Be(n: nat): string {
    BigEndian(n, 8)
  }

  function BigEndian(n: nat, width: nat): (r: string)
    ensures |r| == width
  {
    if width == 0 then [] else BigEndian(n / 256, width - 1) + [(n % 256) as char]
  }

  /** `composite_delegation_key`: the node's length, the node, the delegation. */
  function DelegationKey(node: string, delegation: string): string {
    DelegationPrefix(node) + delegation
  }

  /** `node_delegation_prefix`. */
  function DelegationPrefix(node: string): string {
    U16Le(|node|) + node
  }

  /** `node_prefix_len`: where the node part of a composite key ends. */
  function NodePrefixLen(key: string): Option<nat> {
    if |key| < 2 then None
    else Some(2 + (key[0] as nat + 256 * (key[1] as nat)))
  }

  /** The longest SPIFFE ID: section 2.3 of the SPIFFE-ID standard allows 2048 bytes. */
  const MAX_SPIFFE_ID: nat := 2048

  /** The identifiers the admin service admits: `[a-z0-9-]`, 1 to 63 bytes, no hyphen at either end. */
  predicate ValidIdentifier(s: string) {
    && 1 <= |s| <= 63
    && (forall i :: 0 <= i < |s| ==> ('a' <= s[i] <= 'z') || IsDigit(s[i]) || s[i] == '-')
    && s[0] != '-' && s[|s| - 1] != '-'
  }

  lemma U16LeInjective(m: nat, n: nat)
    requires m < 0x1_0000 && n < 0x1_0000
    requires U16Le(m) == U16Le(n)
    ensures m == n
  {
    assert U16Le(m)[0] == U16Le(n)[0] && U16Le(m)[1] == U16Le(n)[1];
    assert m % 256 == n % 256 && m / 256 == n / 256;
  }

  /** The length prefix makes the scan of one node's delegations exact: a composite key starts
  with a node's prefix only if it is that node's key. */
  lemma DelegationPrefixExact(scanned: string, node: string, delegation: string)
    requires |scanned| < 0x1_0000 && |node| < 0x1_0000
    ensures DelegationPrefix(scanned) <= DelegationKey(node, delegation) <==> scanned == node
  {
    var key := DelegationKey(node, delegation);
    if DelegationPrefix(scanned) <= key {
      assert key[..2] == U16Le(|node|);
      assert DelegationPrefix(scanned)[..2] == U16Le(|scanned|);
      assert key[..2] == DelegationPrefix(scanned)[..2];
      U16LeInjective(|scanned|, |node|);
      assert key[2..2 + |node|] == node;
      assert DelegationPrefix(scanned)[2..2 + |node|] == scanned;
    }
  }

  /** A composite key determines its node and its delegation. */
  lemma DelegationKeyInjective(node: string, delegation: string, node': string, delegation': string)
    requires |node| < 0x1_0000 && |node'| < 0x1_0000
    requires DelegationKey(node, delegation) == DelegationKey(node', delegation')
    ensures node == node' && delegation == delegation'
  {
    DelegationPrefixExact(node, node', delegation');
    var p := DelegationPrefix(node);
    assert DelegationKey(node, delegation)[|p|..] == delegation;
    assert DelegationKey(node', delegation')[|p|..] == delegation';
  }

  /** `node_prefix_len` recovers the length of the prefix a composite key was built with. */
  lemma NodePrefixLenRecovers(node: string, delegation: string)
    requires |node| < 0x1_0000
    ensures NodePrefixLen(DelegationKey(node, delegation)) == Some(|DelegationPrefix(node)|)
  {
    var key := DelegationKey(node, delegation);
    assert key[0] == U16Le(|node|)[0] && key[1] == U16Le(|node|)[1];
  }

  lemma Bytewise(q: nat, x: nat)
    ensures (256 * q + x) % 256 == x % 256 && (256 * q + x) / 256 == q + x / 256
  {
  }

  lemma U16LeWraps(q: nat, r: nat)
    ensures U16Le(0x1_0000 * q + r) == U16Le(r)
  {
    Bytewise(256 * q, r);
    Bytewise(q, r / 256);
    assert 0x1_0000 * q + r == 256 * (256 * q) + r;
  }

  /** The scan of a node id whose length was cut to `r` by the field finds the keys of the longer id. */
  lemma FoundByOwnHead(node: string, delegation: string, q: nat, r: nat)
    requires |node| == 0x1_0000 * q + r
    ensures DelegationPrefix(node[..r]) <= DelegationKey(node, delegation)
  {
    hide U16Le;
    U16LeWraps(q, r);
    assert DelegationKey(node, delegation)[..2 + r] == DelegationPrefix(node[..r]);
  }

  /** The scan of some other node finds a node's delegations. */
  ghost predicate FoundByAnother(node: string, delegation: string) {
    exists scanned ::
      |scanned| < 0x1_0000 && scanned != node && DelegationPrefix(scanned) <= DelegationKey(node, delegation)
  }

  /** Beyond the 16-bit length field, and only there, the truncated length lets the scan of another node find
  a node's delegations: the scan of its own first `|node| % 2^16` bytes does. */
  lemma DelegationPrefixCollides(node: string, delegation: string)
    ensures FoundByAnother(node, delegation) <==> |node| >= 0x1_0000
  {
    hide DelegationPrefix, DelegationKey;
    if |node| >= 0x1_0000 {
      FoundByOwnHead(node, delegation, |node| / 0x1_0000, |node| % 0x1_0000);
      assert |node[..|node| % 0x1_0000]| != |node|;
    } else if FoundByAnother(node, delegation) {
      var scanned :|
        |scanned| < 0x1_0000 && scanned != node && DelegationPrefix(scanned) <= DelegationKey(node, delegation);
      DelegationPrefixExact(scanned, node, delegation);
    }
  }

  /** Splitting at the first separator is unambiguous when the heads do not contain it. */
  lemma FirstSeparator(a: string, b: string, x: string, y: string, sep: char)
    requires a + [sep] + x == b + [sep] + y
    requires sep !in a && sep !in b
    ensures a == b && x == y
  {
    var l := a + [sep] + x;
    var r := b + [sep] + y;
    assert l[|a|] == sep && r[|b|] == sep;
    assert forall j :: 0 <= j < |a| ==> l[j] == a[j];
    assert forall j :: 0 <= j < |b| ==> r[j] == b[j];
    assert l[..|a|] == a && r[..|b|] == b;
    assert l[|a| + 1..] == x && r[|b| + 1..] == y;
  }

  predicate LetterOrDigit(c: char) {
    'a' <= c <= 'z' || '0' <= c <= '9'
  }

  predicate LettersDigitsHyphens(s: string) {
    s == [] || ((LetterOrDigit(s[0]) || s[0] == '-') && LettersDigitsHyphens(s[1..]))
  }

  /** The grammar of a host label, section 2.3.1 of RFC 1035 with the first digit section 2.1 of RFC 1123 allows, in
  lower case. */
  predicate HostLabel(s: string) {
    && s != [] && LetterOrDigit(s[0])
    && (|s| > 1 ==> LettersDigitsHyphens(s[1..|s| - 1]) && LetterOrDigit(s[|s| - 1]))
  }

  lemma {:induction false} LettersDigitsHyphensAt(s: string)
    ensures LettersDigitsHyphens(s) <==> forall i :: 0 <= i < |s| ==> LetterOrDigit(s[i]) || s[i] == '-'
  {
    if s != [] {
      LettersDigitsHyphensAt(s[1..]);
      if LettersDigitsHyphens(s) {
        forall i | 0 <= i < |s|
          ensures LetterOrDigit(s[i]) || s[i] == '-'
        {
          if i > 0 {
            assert s[i] == s[1..][i - 1];
          }
        }
      }
    }
  }

  /** The identifiers the admin service admits are exactly the host labels of at most 63 bytes. */
  lemma IdentifierIsHostLabel(s: string)
    ensures ValidIdentifier(s) <==> |s| <= 63 && HostLabel(s)
  {
    if |s| > 1 {
      hide LettersDigitsHyphens;
      var inner := s[1..|s| - 1];
      LettersDigitsHyphensAt(inner);
      if HostLabel(s) {
        forall i | 0 <= i < |s|
          ensures LetterOrDigit(s[i]) || s[i] == '-'
        {
          if 0 < i < |s| - 1 {
            assert s[i] == inner[i - 1];
          }
        }
      }
    }
  }

  lemma IdentifierHasNoColon(s: string)
    requires ValidIdentifier(s)
    ensures ':' !in s
  {
  }

  lemma WorkloadKeyInjective(t: string, w: string, t': string, w': string)
    requires ':' !in t && ':' !in t'
    requires WorkloadKey(t, w) == WorkloadKey(t', w')
    ensures t == t' && w == w'
  {
    FirstSeparator(t, t', w, w', ':');
  }

  lemma BlockKeyInjective(t: string, t': string)
    requires BlockKey(t) == BlockKey(t')
    ensures t == t'
  {
    assert BlockKey(t)[7..] == t && BlockKey(t')[7..] == t';
  }

  /** Address keys of admitted tenants and services are distinct for distinct triples. */
  lemma AddressKeyInjective(t: string, s: string, r: string, t': string, s': string, r': string)
    requires ':' !in t && ':' !in t' && ':' !in s && ':' !in s'
    requires AddressKey(t, s, r) == AddressKey(t', s', r')
    ensures t == t' && s == s' && r == r'
  {
    assert AddressKey(t, s, r)[8..] == t + [':'] + (s + [':'] + r);
    assert AddressKey(t', s', r')[8..] == t' + [':'] + (s' + [':'] + r');
    FirstSeparator(t, t', s + [':'] + r, s' + [':'] + r', ':');
    FirstSeparator(s, s', r, r', ':');
  }

  /** Tenant and address records share a keyspace without sharing keys. */
  lemma BlockKeyIsNotAddressKey(t: string, t': string, s': string, r': string)
    ensures BlockKey(t) != AddressKey(t', s', r')
    ensures "tenant:" <= BlockKey(t)
    ensures !("tenant:" <= AddressKey(t', s', r'))
  {
    assert AddressKey(t', s', r')[0] == 's';
    assert BlockKey(t)[0] == 't';
    assert BlockKey(t)[..7] == "tenant:";
  }

  function Pow256(w: nat): (p: nat)
    ensures p >= 1
  {
    if w == 0 then 1 else 256 * Pow256(w - 1)
  }

  /** Byte order of big-endian keys is the order of the indices they encode. */
  lemma {:induction false} BigEndianOrder(m: nat, n: nat, width: nat)
    requires m < Pow256(width) && n < Pow256(width)
    ensures Less(BigEndian(m, width), BigEndian(n, width)) <==> m < n
    ensures BigEndian(m, width) == BigEndian(n, width) <==> m == n
  {
    if width > 0 {
      BigEndianOrder(m / 256, n / 256, width - 1);
      var a, b := BigEndian(m / 256, width - 1), BigEndian(n / 256, width - 1);
      var c, d := (m % 256) as char, (n % 256) as char;
      LessLast(a, b, c, d);
      assert a + [c] == b + [d] <==> a == b && c == d by {
        assert (a + [c])[..width - 1] == a && (b + [d])[..width - 1] == b;
        assert (a + [c])[width - 1] == c && (b + [d])[width - 1] == d;
      }
    }
  }

  lemma U64BeOrder(m: nat, n: nat)
    requires m < 0x1_0000_0000_0000_0000 && n < 0x1_0000_0000_0000_0000
    ensures Less(U64Be(m), U64Be(n)) <==> m < n
    ensures U64Be(m) == U64Be(n) <==> m == n
  {
    Pow256Eight();
    BigEndianOrder(m, n, 8);
  }

  lemma Pow256Eight()
    ensures Pow256(8) == 0x1_0000_0000_0000_0000
  {
    assert Pow256(2) == 0x1_0000;
    assert Pow256(4) == 0x1_0000_0000;
    assert Pow256(6) == 0x1_0000_0000_0000;
  }

  /** Cron workloads share the keyspace of workloads without sharing their keys: workload ids have no colon. */
  lemma CronKeyIsNotWorkloadKey(t: string, c: string, t': string, w: string)
    requires ':' !in w && ':' !in t'
    ensures CronKey(t, c) != WorkloadKey(t', w)
  {
    if CronKey(t, c) == WorkloadKey(t', w) {
      assert CronKey(t, c) == "cron" + [':'] + (t + [':'] + c);
      assert (t + [':'] + c)[|t|] == ':';
      FirstSeparator("cron", t', t + [':'] + c, w, ':');
    }
  }

  lemma CronKeyInjective(t: string, c: string, t': string, c': string)
    requires ':' !in t && ':' !in t' && CronKey(t, c) == CronKey(t', c')
    ensures t == t' && c == c'
  {
    assert CronKey(t, c)[5..] == t + [':'] + c && CronKey(t', c')[5..] == t' + [':'] + c';
    FirstSeparator(t, t', c, c', ':');
  }
}
