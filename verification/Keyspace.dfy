/** Byte layout of state-CF and node-local keys (src/keyspace.rs). */
module Keyspace {
  import opened Types
  import opened DataStateMachine

  function Pow256(width: nat): nat {
    if width == 0 then 1 else 256 * Pow256(width - 1)
  }

  /** `to_be_bytes` of an integer `width` bytes wide. */
  function BigEndian(n: nat, width: nat): (b: Bytes)
    ensures |b| == width
    decreases width
  {
    if width == 0 then [] else BigEndian(n / 256, width - 1) + [n % 256]
  }

  /** `from_be_bytes`. */
  function FromBigEndian(b: Bytes): nat {
    if b == [] then 0 else FromBigEndian(b[..|b| - 1]) * 256 + b[|b| - 1]
  }

  lemma {:induction false} BigEndianRoundTrip(n: nat, width: nat)
    requires n < Pow256(width)
    ensures FromBigEndian(BigEndian(n, width)) == n
    decreases width
  {
    if width > 0 {
      BigEndianRoundTrip(n / 256, width - 1);
      var b := BigEndian(n, width);
      assert b[..|b| - 1] == BigEndian(n / 256, width - 1);
    }
  }

  lemma {:induction false} FromBigEndianRoundTrip(b: Bytes)
    ensures FromBigEndian(b) < Pow256(|b|) && BigEndian(FromBigEndian(b), |b|) == b
  {
    if b != [] {
      var init := b[..|b| - 1];
      FromBigEndianRoundTrip(init);
      assert FromBigEndian(b) / 256 == FromBigEndian(init) && FromBigEndian(b) % 256 == b[|b| - 1];
      assert b == init + [b[|b| - 1]];
    }
  }

  lemma Widths()
    ensures Pow256(2) == U16_MAX + 1
    ensures Pow256(4) == U32_MAX + 1
    ensures Pow256(8) == U64_MAX + 1
  {
    assert Pow256(1) == 256 && Pow256(2) == 0x1_0000 && Pow256(3) == 0x100_0000 && Pow256(4) == 0x1_0000_0000;
    assert Pow256(5) == 0x100_0000_0000 && Pow256(6) == 0x1_0000_0000_0000 && Pow256(7) == 0x100_0000_0000_0000;
    assert Pow256(8) == 0x1_0000_0000_0000_0000;
  }

  const TAG_INTERNAL: byte := 0
  const TAG_USER: byte := 1
  const TAG_SEQ: byte := 2
  const TAG_META: byte := 3

  // -- Data-group keys ------------------------------------------------------------

  function StateKeyBytes(k: StateKey): Bytes {
    match k
    case UserKey(key) => [TAG_USER] + key
    case SeqKey(client) => [TAG_SEQ] + BigEndian(client, 16)
    case EpochKey => [TAG_INTERNAL, 'E' as int]
  }

  /** No user key, however crafted, addresses a sequence or internal record; distinct keys have distinct bytes. */
  lemma StateKeysAreDistinct(a: StateKey, b: StateKey)
    requires a.SeqKey? ==> a.client < Pow256(16)
    requires b.SeqKey? ==> b.client < Pow256(16)
    ensures StateKeyBytes(a) == StateKeyBytes(b) <==> a == b
  {
    var x, y := StateKeyBytes(a), StateKeyBytes(b);
    if x == y {
      assert x[0] == y[0] && x[1..] == y[1..];
      match a
      case UserKey(key) => assert x[1..] == key && b.UserKey? && y[1..] == b.key;
      case SeqKey(client) =>
        assert x[1..] == BigEndian(client, 16) && b.SeqKey? && y[1..] == BigEndian(b.client, 16);
        BigEndianRoundTrip(client, 16);
        BigEndianRoundTrip(b.client, 16);
      case EpochKey =>
    }
  }

  // -- Meta-group keys --------------------------------------------------------------

  function Decimal(n: nat): Bytes {
    if n < 10 then [48 + n] else Decimal(n / 10) + [48 + n % 10]
  }

  lemma {:induction false} DecimalInjective(a: nat, b: nat)
    requires Decimal(a) == Decimal(b)
    ensures a == b
    decreases a
  {
    var x, y := Decimal(a), Decimal(b);
    assert x[|x| - 1] == y[|y| - 1];
    assert forall n :: n >= 10 ==> |Decimal(n)| == |Decimal(n / 10)| + 1;
    assert forall n :: |Decimal(n)| >= 1;
    if a >= 10 && b >= 10 {
      assert Decimal(a / 10) == x[..|x| - 1] && Decimal(b / 10) == y[..|y| - 1];
      DecimalInjective(a / 10, b / 10);
    }
  }

  const META_TOKEN: Bytes := ['m' as int, 'e' as int, 't' as int, 'a' as int]
  const DATA_TOKEN: Bytes := ['d' as int, 'a' as int, 't' as int, 'a' as int, '_' as int]

  /** The stable on-disk group identifier. */
  function Token(g: GroupId): Bytes {
    match g
    case Meta => META_TOKEN
    case Data(p) => DATA_TOKEN + Decimal(p)
  }

  lemma TokenInjective(a: GroupId, b: GroupId)
    requires Token(a) == Token(b)
    ensures a == b
  {
    assert Token(a)[0] == Token(b)[0];
    if a.Data? && b.Data? {
      assert Decimal(a.partition) == Token(a)[5..] && Decimal(b.partition) == Token(b)[5..];
      DecimalInjective(a.partition, b.partition);
    }
  }

  /** A byte that no group token holds. */
  const SLASH: nat := '/' as int

  lemma {:induction false} DecimalHasNoSlash(n: nat)
    ensures SLASH !in Decimal(n)
    decreases n
  {
    if n >= 10 { DecimalHasNoSlash(n / 10); }
  }

  lemma TokenHasNoSlash(g: GroupId)
    ensures SLASH !in Token(g)
  {
    if g.Data? { DecimalHasNoSlash(g.partition); }
  }

  /** Names are length-prefixed; the cast to `u32` truncates. */
  function NameLenPrefix(name: Bytes): (b: Bytes)
    ensures |b| == 4
  {
    BigEndian(Truncate32(|name|), 4)
  }

  function Truncate32(n: nat): (r: u32)
    ensures n <= U32_MAX ==> r == n
  {
    n % (U32_MAX + 1)
  }

  lemma LenPrefixValue(name: Bytes)
    requires |name| <= U32_MAX
    ensures FromBigEndian(NameLenPrefix(name)) == |name|
  {
    Widths();
    BigEndianRoundTrip(|name|, 4);
  }

  lemma Int64Value(n: nat)
    requires n <= U64_MAX
    ensures FromBigEndian(BigEndian(n, 8)) == n
  {
    Widths();
    BigEndianRoundTrip(n, 8);
  }

  function ReadyPrefix(name: Bytes, generation: nat): Bytes {
    [TAG_META, 's' as int] + NameLenPrefix(name) + name + BigEndian(generation, 8)
  }

  function GroupTag(g: GroupId): (b: Bytes)
    ensures |b| == 3
  {
    match g
    case Data(p) => [1] + BigEndian(p, 2)
    case Meta => [0, 0, 0]
  }

  datatype ReadyKey = ReadyKey(name: Bytes, generation: nat, group: GroupId, nodeId: NodeId)

  function ReadyKeyBytes(k: ReadyKey): Bytes {
    ReadyPrefix(k.name, k.generation) + (GroupTag(k.group) + BigEndian(k.nodeId, 8))
  }

  /** Names and generations that reach a key: validated names are at most 128 bytes, generations are log indices. */
  predicate Encodable(name: Bytes, generation: nat) {
    |name| <= U32_MAX && generation <= U64_MAX
  }

  /** Where the three fields of a length-prefixed frame sit. */
  lemma FrameParts(head: Bytes, len: Bytes, name: Bytes, generation: Bytes, tail: Bytes)
    requires |len| == 4 && |generation| == 8
    ensures var b := head + len + name + generation + tail; var h := |head|;
            && b[h..h + 4] == len
            && b[h + 4..h + 4 + |name|] == name
            && b[h + 4 + |name|..h + 12 + |name|] == generation
            && b[h + 12 + |name|..] == tail
  {
  }

  lemma FramePrefix(head: Bytes, l1: Bytes, n1: Bytes, g1: Bytes, l2: Bytes, n2: Bytes, g2: Bytes, tail: Bytes)
    requires |l1| == |l2| == 4 && |g1| == |g2| == 8
    requires head + l1 + n1 + g1 <= head + l2 + n2 + g2 + tail
    requires l1 == l2 ==> |n1| == |n2|
    ensures l1 == l2 && n1 == n2 && g1 == g2
  {
    var p, b, h := head + l1 + n1 + g1, head + l2 + n2 + g2 + tail, |head|;
    FrameParts(head, l1, n1, g1, []);
    assert p + [] == p;
    FrameParts(head, l2, n2, g2, tail);
    assert p[h..h + 4] == b[h..h + 4];
    assert p[h + 4..h + 4 + |n1|] == b[h + 4..h + 4 + |n1|];
    assert p[h + 4 + |n1|..h + 12 + |n1|] == b[h + 4 + |n1|..h + 12 + |n1|];
  }

  lemma LenPrefixGivesLength(a: Bytes, b: Bytes)
    requires |a| <= U32_MAX && |b| <= U32_MAX && NameLenPrefix(a) == NameLenPrefix(b)
    ensures |a| == |b|
  {
    LenPrefixValue(a);
    LenPrefixValue(b);
  }

  lemma BigEndian8Injective(a: nat, b: nat)
    requires a <= U64_MAX && b <= U64_MAX && BigEndian(a, 8) == BigEndian(b, 8)
    ensures a == b
  {
    Int64Value(a);
    Int64Value(b);
  }

  const READY_HEAD: Bytes := [TAG_META, 's' as int]

  /** A prefix scan for `(name, generation)` selects exactly the readiness keys of that name and generation. */
  lemma ReadyScanIsExact(name: Bytes, generation: nat, k: ReadyKey)
    requires Encodable(name, generation) && Encodable(k.name, k.generation)
    ensures ReadyPrefix(name, generation) <= ReadyKeyBytes(k) <==> k.name == name && k.generation == generation
  {
    var tail := GroupTag(k.group) + BigEndian(k.nodeId, 8);
    var l1, g1, l2, g2 := NameLenPrefix(name), BigEndian(generation, 8), NameLenPrefix(k.name),
        BigEndian(k.generation, 8);
    if ReadyPrefix(name, generation) <= ReadyKeyBytes(k) {
      assert READY_HEAD + l1 + name + g1 <= READY_HEAD + l2 + k.name + g2 + tail;
      if l1 == l2 { LenPrefixGivesLength(name, k.name); }
      FramePrefix(READY_HEAD, l1, name, g1, l2, k.name, g2, tail);
      BigEndian8Injective(generation, k.generation);
    }
  }

  datatype MetaKey =
    | ClusterKey
    | MaintenanceKey
    | NodeKey(node: NodeId)
    | RetiredKey(retired: NodeId)
    | PlacementKey(group: GroupId)
    | SearchKey(name: Bytes)
    | ReadinessKey(ready: ReadyKey)

  function MetaKeyBytes(k: MetaKey): Bytes {
    match k
    case ClusterKey => [TAG_META, 'C' as int]
    case MaintenanceKey => [TAG_META, 'M' as int]
    case NodeKey(n) => [TAG_META, 'N' as int] + BigEndian(n, 8)
    case RetiredKey(n) => [TAG_META, 'X' as int] + BigEndian(n, 8)
    case PlacementKey(g) => [TAG_META, 'P' as int] + Token(g)
    case SearchKey(name) => [TAG_META, 'S' as int] + (NameLenPrefix(name) + name)
    case ReadinessKey(r) => ReadyKeyBytes(r)
  }

  predicate MetaKeyInRange(k: MetaKey) {
    match k
    case NodeKey(n) => n <= U64_MAX
    case RetiredKey(n) => n <= U64_MAX
    case SearchKey(name) => |name| <= U32_MAX
    case ReadinessKey(r) => Encodable(r.name, r.generation) && r.nodeId <= U64_MAX
    case _ => true
  }

  lemma ReadyKeyInjective(a: ReadyKey, b: ReadyKey)
    requires MetaKeyInRange(ReadinessKey(a)) && MetaKeyInRange(ReadinessKey(b))
    requires ReadyKeyBytes(a) == ReadyKeyBytes(b)
    ensures a == b
  {
    ReadyScanIsExact(a.name, a.generation, b);
    var ta, tb := GroupTag(a.group) + BigEndian(a.nodeId, 8), GroupTag(b.group) + BigEndian(b.nodeId, 8);
    var prefix := ReadyPrefix(a.name, a.generation);
    assert ta == (prefix + ta)[|prefix|..] == (prefix + tb)[|prefix|..] == tb;
    assert GroupTag(a.group) == ta[..3] == tb[..3] == GroupTag(b.group);
    assert BigEndian(a.nodeId, 8) == ta[3..] == tb[3..] == BigEndian(b.nodeId, 8);
    BigEndian8Injective(a.nodeId, b.nodeId);
    Widths();
    assert GroupTag(a.group)[0] == GroupTag(b.group)[0];
    if a.group.Data? && b.group.Data? {
      assert BigEndian(a.group.partition, 2) == GroupTag(a.group)[1..] == GroupTag(b.group)[1..]
          == BigEndian(b.group.partition, 2);
      BigEndianRoundTrip(a.group.partition, 2);
      BigEndianRoundTrip(b.group.partition, 2);
    }
  }

  /** Distinct meta records never share a key, so the meta column family is a union of independent maps. */
  lemma MetaKeysAreDistinct(a: MetaKey, b: MetaKey)
    requires MetaKeyInRange(a) && MetaKeyInRange(b)
    ensures MetaKeyBytes(a) == MetaKeyBytes(b) <==> a == b
  {
    var x, y := MetaKeyBytes(a), MetaKeyBytes(b);
    if x == y {
      assert x[1] == y[1] && x[2..] == y[2..];
      match a
      case NodeKey(n) =>
        assert b.NodeKey?;
        assert x[2..] == BigEndian(n, 8) && y[2..] == BigEndian(b.node, 8);
        BigEndian8Injective(n, b.node);
      case RetiredKey(n) =>
        assert b.RetiredKey?;
        assert x[2..] == BigEndian(n, 8) && y[2..] == BigEndian(b.retired, 8);
        BigEndian8Injective(n, b.retired);
      case PlacementKey(g) =>
        assert b.PlacementKey?;
        assert x[2..] == Token(g) && y[2..] == Token(b.group);
        TokenInjective(g, b.group);
      case SearchKey(name) =>
        assert b.SearchKey?;
        assert x[2..] == NameLenPrefix(name) + name && y[2..] == NameLenPrefix(b.name) + b.name;
        assert x[2..][4..] == name && y[2..][4..] == b.name;
      case ReadinessKey(r) =>
        assert b.ReadinessKey?;
        ReadyKeyInjective(r, b.ready);
      case _ =>
    }
  }

  // -- One column family ------------------------------------------------------------------

  /** Every record a group's state column family can hold. */
  datatype StoreKey =
    | StateRecord(state: StateKey)
    | LastAppliedRecord
    | RaftAppliedRecord
    | MetaRecord(meta: MetaKey)

  function StoreKeyBytes(k: StoreKey): Bytes {
    match k
    case StateRecord(state) => StateKeyBytes(state)
    case LastAppliedRecord => [TAG_INTERNAL, 'L' as int]
    case RaftAppliedRecord => [TAG_INTERNAL, 'R' as int]
    case MetaRecord(meta) => MetaKeyBytes(meta)
  }

  predicate StoreKeyInRange(k: StoreKey) {
    match k
    case StateRecord(state) => state.SeqKey? ==> state.client < Pow256(16)
    case MetaRecord(meta) => MetaKeyInRange(meta)
    case _ => true
  }

  /** Whatever their kind, two records share a key only if they are the same record: no user key, however crafted,
      addresses a sequence, internal or meta record. */
  lemma StoreKeysAreDistinct(a: StoreKey, b: StoreKey)
    requires StoreKeyInRange(a) && StoreKeyInRange(b)
    ensures StoreKeyBytes(a) == StoreKeyBytes(b) <==> a == b
  {
    if a.StateRecord? && b.StateRecord? {
      StateKeysAreDistinct(a.state, b.state);
    } else if a.MetaRecord? && b.MetaRecord? {
      MetaKeysAreDistinct(a.meta, b.meta);
    } else if a != b {
      TagsTell(a);
      TagsTell(b);
    }
  }

  /** The first byte separates the families, the second the three internal records. */
  lemma TagsTell(k: StoreKey)
    ensures var b := StoreKeyBytes(k);
            && |b| > 0
            && (b[0] == TAG_META <==> k.MetaRecord?)
            && (k.LastAppliedRecord? ==> b == [TAG_INTERNAL, 'L' as int])
            && (k.RaftAppliedRecord? ==> b == [TAG_INTERNAL, 'R' as int])
            && (k.StateRecord? && b[0] == TAG_INTERNAL ==> b == [TAG_INTERNAL, 'E' as int])
  {
    if k.MetaRecord? { MetaTag(k.meta); }
  }

  lemma MetaTag(k: MetaKey)
    ensures |MetaKeyBytes(k)| > 0 && MetaKeyBytes(k)[0] == TAG_META
  {
  }

  // -- Search consumer keys (node-local) ------------------------------------------------

  function ConsumerPrefix(g: GroupId): Bytes {
    Ascii("local/search/") + Token(g) + Ascii("/") + Ascii("consumer/")
  }

  function Ascii(s: string): (b: Bytes)
    ensures |b| == |s|
  {
    seq(|s|, i requires 0 <= i < |s| => (s[i] as int) % 256)
  }

  function ConsumerKey(g: GroupId, name: Bytes, generation: nat): Bytes {
    ConsumerPrefix(g) + NameLenPrefix(name) + name + BigEndian(generation, 8)
  }

  /** The part of `decode_search_consumer_key` after the group prefix; `utf8` is the check on the name bytes. */
  function DecodeFrame(rest: Bytes, utf8: Bytes -> bool): Option<(Bytes, nat)> {
    if |rest| < 4 then None
    else
      var n := FromBigEndian(rest[..4]);
      if |rest| < 4 + n + 8 then None
      else if !utf8(rest[4..4 + n]) then None
      else Some((rest[4..4 + n], FromBigEndian(rest[4 + n..4 + n + 8])))
  }

  function DecodeAfter(prefix: Bytes, key: Bytes, utf8: Bytes -> bool): Option<(Bytes, nat)> {
    if prefix <= key then DecodeFrame(key[|prefix|..], utf8) else None
  }

  function DecodeConsumerKey(g: GroupId, key: Bytes, utf8: Bytes -> bool): Option<(Bytes, nat)> {
    DecodeAfter(ConsumerPrefix(g), key, utf8)
  }

  /** Bytes after a complete frame make no difference. */
  lemma FrameRoundTrip(len: Bytes, name: Bytes, generation: Bytes, extra: Bytes, utf8: Bytes -> bool)
    requires |len| == 4 && |generation| == 8 && FromBigEndian(len) == |name| && utf8(name)
    ensures DecodeFrame(len + name + generation + extra, utf8) == Some((name, FromBigEndian(generation)))
  {
    var rest := len + name + generation + extra;
    assert rest[..4] == len && rest[4..4 + |name|] == name && rest[4 + |name|..4 + |name| + 8] == generation;
  }

  lemma AfterRoundTrip(prefix: Bytes, len: Bytes, name: Bytes, generation: Bytes, extra: Bytes, utf8: Bytes -> bool)
    requires |len| == 4 && |generation| == 8 && FromBigEndian(len) == |name| && utf8(name)
    ensures DecodeAfter(prefix, prefix + len + name + generation + extra, utf8)
            == Some((name, FromBigEndian(generation)))
  {
    var key := prefix + len + name + generation + extra;
    assert key[|prefix|..] == len + name + generation + extra;
    FrameRoundTrip(len, name, generation, extra, utf8);
  }

  /** The decoder inverts the encoder, and it accepts an encoded key with anything at all appended to it. */
  lemma ConsumerKeyRoundTrip(g: GroupId, name: Bytes, generation: nat, extra: Bytes, utf8: Bytes -> bool)
    requires Encodable(name, generation) && utf8(name)
    ensures DecodeConsumerKey(g, ConsumerKey(g, name, generation), utf8) == Some((name, generation))
    ensures DecodeConsumerKey(g, ConsumerKey(g, name, generation) + extra, utf8) == Some((name, generation))
  {
    LenPrefixValue(name);
    Int64Value(generation);
    var key := ConsumerKey(g, name, generation);
    AfterRoundTrip(ConsumerPrefix(g), NameLenPrefix(name), name, BigEndian(generation, 8), extra, utf8);
    AfterRoundTrip(ConsumerPrefix(g), NameLenPrefix(name), name, BigEndian(generation, 8), [], utf8);
    assert key + [] == key;
  }

  /** What stands between the same head and the first byte it does not hold is determined. */
  lemma EndsAtSameByte(head: Bytes, x: Bytes, y: Bytes, end: Bytes, u: Bytes, v: Bytes)
    requires |end| == 1 && end[0] !in x && end[0] !in y && head + x + end + u == head + y + end + v
    ensures x == y
  {
    var whole := head + x + end + u;
    assert whole[|head|..|head| + |x|] == x && whole[|head|..|head| + |y|] == y;
    assert whole[|head| + |x|] == end[0] && whole[|head| + |y|] == end[0];
  }

  lemma Regroup(a: Bytes, b: Bytes, c: Bytes)
    ensures a + b + c == a + (b + c)
  {
  }

  lemma Reassociate(a: Bytes, b: Bytes, c: Bytes, d: Bytes)
    ensures a + b + c + d == a + (b + c + d)
  {
  }

  lemma ConsumerKeyGroup(g: GroupId, tail: Bytes, h: GroupId, tail': Bytes)
    requires ConsumerPrefix(g) + tail == ConsumerPrefix(h) + tail'
    ensures g == h
  {
    var head, end, foot := Ascii("local/search/"), Ascii("/"), Ascii("consumer/");
    TokenHasNoSlash(g);
    TokenHasNoSlash(h);
    Regroup(head + Token(g) + end, foot, tail);
    Regroup(head + Token(h) + end, foot, tail');
    EndsAtSameByte(head, Token(g), Token(h), end, foot + tail, foot + tail');
    TokenInjective(g, h);
  }

  /** No two consumers of any groups share a key. */
  lemma ConsumerKeyInjective(g: GroupId, name: Bytes, generation: nat, h: GroupId, name': Bytes, generation': nat)
    requires Encodable(name, generation) && Encodable(name', generation')
    ensures ConsumerKey(g, name, generation) == ConsumerKey(h, name', generation')
            <==> g == h && name == name' && generation == generation'
  {
    if ConsumerKey(g, name, generation) == ConsumerKey(h, name', generation') {
      var frame, frame' := NameLenPrefix(name) + name + BigEndian(generation, 8),
                           NameLenPrefix(name') + name' + BigEndian(generation', 8);
      Reassociate(ConsumerPrefix(g), NameLenPrefix(name), name, BigEndian(generation, 8));
      Reassociate(ConsumerPrefix(h), NameLenPrefix(name'), name', BigEndian(generation', 8));
      ConsumerKeyGroup(g, frame, h, frame');
      var anyBytes := (b: Bytes) => true;
      ConsumerKeyRoundTrip(g, name, generation, [], anyBytes);
      ConsumerKeyRoundTrip(h, name', generation', [], anyBytes);
    }
  }

  lemma LenBytesCanonical(len: Bytes, name: Bytes)
    requires |len| == 4 && |name| == FromBigEndian(len)
    ensures NameLenPrefix(name) == len
  {
    Widths();
    FromBigEndianRoundTrip(len);
  }

  /** An accepted frame begins with the encoding of what it decodes to. */
  lemma FrameCanonical(rest: Bytes, utf8: Bytes -> bool)
    requires DecodeFrame(rest, utf8).Some?
    ensures var (name, generation) := DecodeFrame(rest, utf8).value;
            && |name| == FromBigEndian(rest[..4])
            && rest[..12 + |name|] == NameLenPrefix(name) + name + BigEndian(generation, 8)
  {
    var (name, generation) := DecodeFrame(rest, utf8).value;
    var gen := rest[4 + |name|..4 + |name| + 8];
    LenBytesCanonical(rest[..4], name);
    FromBigEndianRoundTrip(gen);
    assert rest[..12 + |name|] == rest[..4] + name + gen;
  }

  /** `prefix + frame` is the start of `key`, and the whole of it exactly if nothing follows. */
  lemma PrefixedFrame(prefix: Bytes, key: Bytes, frame: Bytes, n: nat)
    requires prefix <= key && |prefix| + n <= |key| && key[|prefix|..][..n] == frame
    ensures prefix + frame <= key
    ensures prefix + frame == key <==> |key| == |prefix| + n
  {
    assert key[|prefix|..][..n] == key[|prefix|..|prefix| + n];
    assert key[..|prefix| + n] == prefix + frame;
    if |key| == |prefix| + n { assert key == key[..|prefix| + n]; }
  }

  lemma AfterCanonical(prefix: Bytes, key: Bytes, utf8: Bytes -> bool)
    requires DecodeAfter(prefix, key, utf8).Some?
    ensures |key| >= |prefix| + 4
    ensures var (name, generation) := DecodeAfter(prefix, key, utf8).value;
            var frame := NameLenPrefix(name) + name + BigEndian(generation, 8);
            && prefix + frame <= key
            && (prefix + frame == key <==> |key| == |prefix| + 12 + FromBigEndian(key[|prefix|..|prefix| + 4]))
  {
    var rest := key[|prefix|..];
    var (name, generation) := DecodeFrame(rest, utf8).value;
    FrameCanonical(rest, utf8);
    PrefixedFrame(prefix, key, NameLenPrefix(name) + name + BigEndian(generation, 8), 12 + |name|);
    assert rest[..4] == key[|prefix|..|prefix| + 4];
  }

  /** The decoder tolerates trailing bytes: every accepted key begins with the encoding of what it decodes to, and
      equals it exactly when the length the key itself announces reaches its end. */
  lemma ConsumerKeyCanonical(g: GroupId, key: Bytes, utf8: Bytes -> bool)
    requires DecodeConsumerKey(g, key, utf8).Some?
    ensures |key| >= |ConsumerPrefix(g)| + 4
    ensures var (name, generation) := DecodeConsumerKey(g, key, utf8).value;
            var at := |ConsumerPrefix(g)|;
            && ConsumerKey(g, name, generation) <= key
            && (ConsumerKey(g, name, generation) == key <==> |key| == at + 12 + FromBigEndian(key[at..at + 4]))
  {
    AfterCanonical(ConsumerPrefix(g), key, utf8);
    var (name, generation) := DecodeConsumerKey(g, key, utf8).value;
    Reassociate(ConsumerPrefix(g), NameLenPrefix(name), name, BigEndian(generation, 8));
  }
}
