/** The snapshot stream (src/snapshot.rs): length-delimited records, a count and a checksum. */
module Snapshot {
  import opened Types
  import opened Keyspace

  const MAGIC: Bytes := [68, 65, 76, 83, 78, 80, 48, 50]
  const MAX_RECORD_COMPONENT_BYTES: nat := 64 * 1024 * 1024
  const MAX_RECORD_BYTES: nat := 65 * 1024 * 1024

  const WORD: nat := 4
  const LONG: nat := 8

  datatype Record = Record(key: Bytes, value: Bytes)

  predicate LegalLengths(keyLen: nat, valueLen: nat) {
    keyLen <= MAX_RECORD_COMPONENT_BYTES && valueLen <= MAX_RECORD_COMPONENT_BYTES
        && keyLen + valueLen <= MAX_RECORD_BYTES
  }

  predicate Legal(r: Record) {
    LegalLengths(|r.key|, |r.value|)
  }

  predicate AllLegal(records: seq<Record>) {
    |records| <= U64_MAX && forall i :: 0 <= i < |records| ==> Legal(records[i])
  }

  // -- Little-endian integers ---------------------------------------------------------------------

  function LittleEndian(n: nat, width: nat): (b: Bytes)
    ensures |b| == width
    decreases width
  {
    if width == 0 then [] else [n % 256] + LittleEndian(n / 256, width - 1)
  }

  function FromLittleEndian(b: Bytes): nat {
    if b == [] then 0 else b[0] + 256 * FromLittleEndian(b[1..])
  }

  lemma {:induction false} LittleEndianRoundTrip(n: nat, width: nat)
    requires n < Pow256(width)
    ensures FromLittleEndian(LittleEndian(n, width)) == n
    decreases width
  {
    if width > 0 {
      LittleEndianRoundTrip(n / 256, width - 1);
      assert LittleEndian(n, width)[1..] == LittleEndian(n / 256, width - 1);
    }
  }

  lemma {:induction false} FromLittleEndianRoundTrip(b: Bytes)
    ensures FromLittleEndian(b) < Pow256(|b|) && LittleEndian(FromLittleEndian(b), |b|) == b
  {
    if b != [] {
      FromLittleEndianRoundTrip(b[1..]);
      assert FromLittleEndian(b) / 256 == FromLittleEndian(b[1..]) && FromLittleEndian(b) % 256 == b[0];
      assert b == [b[0]] + b[1..];
    }
  }

  lemma Word32(n: nat)
    requires n <= U32_MAX
    ensures FromLittleEndian(LittleEndian(n, WORD)) == n
  {
    Widths();
    LittleEndianRoundTrip(n, 4);
  }

  lemma Word64(n: nat)
    requires n <= U64_MAX
    ensures FromLittleEndian(LittleEndian(n, LONG)) == n
  {
    Widths();
    LittleEndianRoundTrip(n, 8);
  }

  // -- The format ------------------------------------------------------------------------------------

  function Frame(r: Record): Bytes {
    LittleEndian(|r.key|, WORD) + LittleEndian(|r.value|, WORD) + r.key + r.value
  }

  function Body(records: seq<Record>): Bytes {
    if records == [] then [] else Frame(records[0]) + Body(records[1..])
  }

  lemma Assoc(a: Bytes, b: Bytes, c: Bytes)
    ensures (a + b) + c == a + (b + c)
  {
  }

  lemma {:induction false} BodySnoc(records: seq<Record>, r: Record)
    ensures Body(records + [r]) == Body(records) + Frame(r)
  {
    if records == [] {
      assert [r][1..] == [] && records + [r] == [r];
    } else {
      assert (records + [r])[1..] == records[1..] + [r];
      BodySnoc(records[1..], r);
      Assoc(Frame(records[0]), Body(records[1..]), Frame(r));
    }
  }

  const END_MARK: Bytes := LittleEndian(U32_MAX, WORD)

  /** A stream: magic, framed records, end mark, record count, and the digest of the framed records. */
  function Encoding(records: seq<Record>, sha: Bytes -> Bytes): Bytes {
    MAGIC + (Body(records) + (END_MARK + (LittleEndian(|records|, LONG) + sha(Body(records)))))
  }

  ghost predicate Digests(sha: Bytes -> Bytes) {
    forall b: Bytes :: |sha(b)| == 32
  }

  datatype Parsed = Malformed | Parsed(records: seq<Record>, rest: Bytes)

  /** Records up to and including the end mark, and what follows it. */
  function ParseRecords(b: Bytes): Parsed
    decreases |b|
  {
    if |b| < 4 then Malformed
    else
      var keyLen := FromLittleEndian(b[..4]);
      if keyLen == U32_MAX then Parsed([], b[4..])
      else if |b| < 8 then Malformed
      else
        var valueLen := FromLittleEndian(b[4..8]);
        if !LegalLengths(keyLen, valueLen) || |b| < 8 + keyLen + valueLen then Malformed
        else
          var tail := ParseRecords(b[8 + keyLen + valueLen..]);
          if tail.Malformed? then Malformed
          else Parsed([Record(b[8..8 + keyLen], b[8 + keyLen..8 + keyLen + valueLen])] + tail.records, tail.rest)
  }

  predicate FooterMatches(records: seq<Record>, footer: Bytes, sha: Bytes -> Bytes) {
    && |footer| == 40 && |records| <= U64_MAX
    && FromLittleEndian(footer[..8]) == |records| && footer[8..] == sha(Body(records))
  }

  function Decode(b: Bytes, sha: Bytes -> Bytes): Option<seq<Record>> {
    if |b| < 8 || b[..8] != MAGIC then None
    else
      var parsed := ParseRecords(b[8..]);
      if parsed.Malformed? || !FooterMatches(parsed.records, parsed.rest, sha) then None
      else Some(parsed.records)
  }

  // -- Round trips -----------------------------------------------------------------------------------------

  /** Where the four fields of a frame sit. */
  lemma Parts(kl: Bytes, vl: Bytes, key: Bytes, value: Bytes, tail: Bytes)
    requires |kl| == 4 && |vl| == 4
    ensures var b, n := kl + vl + key + value + tail, 8 + |key|;
            && b[..4] == kl && b[4..8] == vl && b[8..n] == key && b[n..n + |value|] == value && b[n + |value|..] == tail
  {
  }

  lemma RecordParts(r: Record, tail: Bytes)
    ensures var b := Frame(r) + tail;
            && |b| >= 8 + |r.key| + |r.value|
            && b[..4] == LittleEndian(|r.key|, WORD) && b[4..8] == LittleEndian(|r.value|, WORD)
            && b[8..8 + |r.key|] == r.key && b[8 + |r.key|..8 + |r.key| + |r.value|] == r.value
            && b[8 + |r.key| + |r.value|..] == tail
  {
    Parts(LittleEndian(|r.key|, WORD), LittleEndian(|r.value|, WORD), r.key, r.value, tail);
  }

  lemma WordBytes(w: Bytes, n: nat)
    requires |w| == WORD && FromLittleEndian(w) == n
    ensures LittleEndian(n, WORD) == w
  {
    FromLittleEndianRoundTrip(w);
  }

  lemma ParseFrame(r: Record, tail: Bytes)
    requires Legal(r)
    ensures ParseRecords(Frame(r) + tail)
         == Joined([r], ParseRecords(tail))
  {
    var b := Frame(r) + tail;
    RecordParts(r, tail);
    Word32(|r.key|);
    Word32(|r.value|);
    assert ParseRecords(b[8 + |r.key| + |r.value|..]) == ParseRecords(tail);
  }

  lemma ParseEnd(mark: Bytes, tail: Bytes)
    requires |mark| == 4 && FromLittleEndian(mark) == U32_MAX
    ensures ParseRecords(mark + tail) == Parsed([], tail)
  {
    var b := mark + tail;
    assert b[..4] == mark && b[4..] == tail;
  }

  lemma BodyCons(r: Record, rest: seq<Record>, end: Bytes)
    ensures Body([r] + rest) + end == Frame(r) + (Body(rest) + end)
  {
    assert ([r] + rest)[1..] == rest;
    Assoc(Frame(r), Body(rest), end);
  }

  lemma ParseCons(r: Record, rest: seq<Record>, end: Bytes, tail: Bytes)
    requires Legal(r) && ParseRecords(Body(rest) + end) == Parsed(rest, tail)
    ensures ParseRecords(Body([r] + rest) + end) == Parsed([r] + rest, tail)
  {
    BodyCons(r, rest, end);
    ParseFrame(r, Body(rest) + end);
  }

  lemma {:induction false} ParseBody(records: seq<Record>, end: Bytes, tail: Bytes)
    requires forall i :: 0 <= i < |records| ==> Legal(records[i])
    requires ParseRecords(end) == Parsed([], tail)
    ensures ParseRecords(Body(records) + end) == Parsed(records, tail)
  {
    if records == [] {
      assert Body(records) + end == end;
    } else {
      ParseBody(records[1..], end, tail);
      ParseCons(records[0], records[1..], end, tail);
      assert records == [records[0]] + records[1..];
    }
  }

  /** Consecutive slices make up the whole. */
  lemma Pieces(b: Bytes, i: nat, j: nat, k: nat, l: nat, end: nat)
    requires i <= j <= k <= l <= end <= |b|
    ensures b[i..j] + b[j..k] + b[k..l] + b[l..end] == b[i..end]
  {
    assert b[i..j] + b[j..k] == b[i..k];
    assert b[i..k] + b[k..l] == b[i..l];
  }

  lemma Rejoin(b: Bytes, i: nat)
    requires i <= |b|
    ensures b[..i] + b[i..] == b
  {
  }

  lemma FramePieces(kl: Bytes, vl: Bytes, r: Record)
    requires |kl| == WORD && |vl| == WORD && FromLittleEndian(kl) == |r.key| && FromLittleEndian(vl) == |r.value|
    ensures Frame(r) == kl + vl + r.key + r.value
  {
    WordBytes(kl, |r.key|);
    WordBytes(vl, |r.value|);
  }

  lemma NamedPieces(b: Bytes, pos: nat, key: Bytes, value: Bytes)
    requires pos + 8 + |key| + |value| <= |b|
    requires b[pos + 8..pos + 8 + |key|] == key && b[pos + 8 + |key|..pos + 8 + |key| + |value|] == value
    ensures b[pos..pos + 8 + |key| + |value|] == b[pos..pos + 4] + b[pos + 4..pos + 8] + key + value
  {
    Pieces(b, pos, pos + 4, pos + 8, pos + 8 + |key|, pos + 8 + |key| + |value|);
  }

  lemma FramedAt(b: Bytes, pos: nat, r: Record)
    requires pos + 8 + |r.key| + |r.value| <= |b|
    requires FromLittleEndian(b[pos..pos + 4]) == |r.key| && FromLittleEndian(b[pos + 4..pos + 8]) == |r.value|
    requires b[pos + 8..pos + 8 + |r.key|] == r.key
    requires b[pos + 8 + |r.key|..pos + 8 + |r.key| + |r.value|] == r.value
    ensures b[pos..pos + 8 + |r.key| + |r.value|] == Frame(r)
  {
    FramePieces(b[pos..pos + 4], b[pos + 4..pos + 8], r);
    NamedPieces(b, pos, r.key, r.value);
  }

  lemma UnframeOne(b: Bytes, keyLen: nat, valueLen: nat)
    requires |b| >= 8 + keyLen + valueLen && LegalLengths(keyLen, valueLen)
    requires FromLittleEndian(b[..4]) == keyLen && FromLittleEndian(b[4..8]) == valueLen
    ensures var r := Record(b[8..8 + keyLen], b[8 + keyLen..8 + keyLen + valueLen]);
            Legal(r) && b == Frame(r) + b[8 + keyLen + valueLen..]
  {
    assert b[0..4] == b[..4];
    FramedAt(b, 0, Record(b[8..8 + keyLen], b[8 + keyLen..8 + keyLen + valueLen]));
    Rejoin(b, 8 + keyLen + valueLen);
  }

  /** What one parsed frame in front of a parsed tail is the encoding of. */
  lemma CanonicalFrame(b: Bytes, r: Record, rest: seq<Record>, tail: Bytes, end: Bytes)
    requires b == Frame(r) + tail && tail == Body(rest) + end
    ensures b == Body([r] + rest) + end
  {
    BodyCons(r, rest, end);
  }

  lemma CanonicalEnd(b: Bytes, mark: Bytes)
    requires |b| >= 4 && |mark| == 4 && FromLittleEndian(mark) == FromLittleEndian(b[..4])
    ensures b == Body([]) + (mark + b[4..])
  {
    WordBytes(b[..4], FromLittleEndian(mark));
    WordBytes(mark, FromLittleEndian(mark));
    Rejoin(b, 4);
  }

  /** `b` is the encoding of legal records up to an end mark, and then the rest. */
  ghost predicate Canonical(b: Bytes, records: seq<Record>, mark: Bytes, rest: Bytes) {
    (forall i :: 0 <= i < |records| ==> Legal(records[i])) && b == Body(records) + (mark + rest)
  }

  lemma CanonicalStep(b: Bytes, keyLen: nat, valueLen: nat, records: seq<Record>, mark: Bytes, rest: Bytes)
    requires |b| >= 8 + keyLen + valueLen && LegalLengths(keyLen, valueLen)
    requires FromLittleEndian(b[..4]) == keyLen && FromLittleEndian(b[4..8]) == valueLen
    requires Canonical(b[8 + keyLen + valueLen..], records, mark, rest)
    ensures Canonical(b, [Record(b[8..8 + keyLen], b[8 + keyLen..8 + keyLen + valueLen])] + records, mark, rest)
  {
    var r := Record(b[8..8 + keyLen], b[8 + keyLen..8 + keyLen + valueLen]);
    UnframeOne(b, keyLen, valueLen);
    CanonicalFrame(b, r, records, b[8 + keyLen + valueLen..], mark + rest);
  }

  /** How the parser gets past a frame. */
  lemma ParseStep(b: Bytes, keyLen: nat) returns (valueLen: nat, q: Parsed)
    requires ParseRecords(b).Parsed? && keyLen == FromLittleEndian(b[..4]) != U32_MAX
    ensures |b| >= 8 + keyLen + valueLen && LegalLengths(keyLen, valueLen) && FromLittleEndian(b[4..8]) == valueLen
    ensures q.Parsed? && q == ParseRecords(b[8 + keyLen + valueLen..])
    ensures ParseRecords(b)
         == Parsed([Record(b[8..8 + keyLen], b[8 + keyLen..8 + keyLen + valueLen])] + q.records, q.rest)
  {
    valueLen := FromLittleEndian(b[4..8]);
    q := ParseRecords(b[8 + keyLen + valueLen..]);
  }

  lemma {:induction false} ParseCanonical(b: Bytes, mark: Bytes)
    requires ParseRecords(b).Parsed? && |mark| == 4 && FromLittleEndian(mark) == U32_MAX
    ensures Canonical(b, ParseRecords(b).records, mark, ParseRecords(b).rest)
    decreases |b|
  {
    var keyLen := FromLittleEndian(b[..4]);
    if keyLen == U32_MAX {
      CanonicalEnd(b, mark);
    } else {
      var valueLen, q := ParseStep(b, keyLen);
      ParseCanonical(b[8 + keyLen + valueLen..], mark);
      CanonicalStep(b, keyLen, valueLen, q.records, mark, q.rest);
    }
  }

  /** Decoding any encoded list of legal records returns that list. */
  lemma DecodeInvertsEncode(records: seq<Record>, sha: Bytes -> Bytes)
    requires AllLegal(records) && Digests(sha)
    ensures Decode(Encoding(records, sha), sha) == Some(records)
  {
    var footer := LittleEndian(|records|, LONG) + sha(Body(records));
    var b := Encoding(records, sha);
    assert b[..8] == MAGIC && b[8..] == Body(records) + (END_MARK + footer);
    Word32(U32_MAX);
    ParseEnd(END_MARK, footer);
    ParseBody(records, END_MARK + footer, footer);
    Word64(|records|);
    assert footer[..8] == LittleEndian(|records|, LONG) && footer[8..] == sha(Body(records));
  }

  /** Any byte string the decoder accepts is the encoding of the records it produced. */
  lemma EncodeInvertsDecode(b: Bytes, sha: Bytes -> Bytes)
    requires Decode(b, sha).Some?
    ensures AllLegal(Decode(b, sha).value) && b == Encoding(Decode(b, sha).value, sha)
  {
    var p := ParseRecords(b[8..]);
    Word32(U32_MAX);
    ParseCanonical(b[8..], END_MARK);
    FromLittleEndianRoundTrip(p.rest[..8]);
    assert p.rest == LittleEndian(|p.records|, LONG) + sha(Body(p.records));
    assert b == MAGIC + b[8..];
  }

  /** Two different record lists never share a stream. */
  lemma EncodingIsInjective(a: seq<Record>, b: seq<Record>, sha: Bytes -> Bytes)
    requires AllLegal(a) && AllLegal(b) && Digests(sha) && Encoding(a, sha) == Encoding(b, sha)
    ensures a == b
  {
    DecodeInvertsEncode(a, sha);
    DecodeInvertsEncode(b, sha);
  }

  // -- The streaming encoder and decoder ------------------------------------------------------------------------

  /** Writes one framed record and feeds the same bytes to the hasher. */
  method WriteRecord(written: Bytes, hashed: Bytes, r: Record) returns (w: Bytes, h: Bytes)
    ensures w == written + Frame(r) && h == hashed + Frame(r)
  {
    w, h := written + LittleEndian(|r.key|, WORD), hashed + LittleEndian(|r.key|, WORD);
    w, h := w + LittleEndian(|r.value|, WORD), h + LittleEndian(|r.value|, WORD);
    w, h := w + r.key, h + r.key;
    w, h := w + r.value, h + r.value;
  }

  /** The streams hold the frames of the first `i` records. */
  ghost predicate Holds(head: Bytes, records: seq<Record>, i: nat, written: Bytes, hashed: Bytes)
    requires i <= |records|
  {
    hashed == Body(records[..i]) && written == head + Body(records[..i])
  }

  lemma OneMoreRecord(head: Bytes, records: seq<Record>, i: nat, written: Bytes, hashed: Bytes)
    requires i < |records| && Holds(head, records, i, written, hashed)
    ensures Holds(head, records, i + 1, written + Frame(records[i]), hashed + Frame(records[i]))
  {
    assert records[..i + 1] == records[..i] + [records[i]];
    BodySnoc(records[..i], records[i]);
    Assoc(head, Body(records[..i]), Frame(records[i]));
  }

  method WriteNext(ghost head: Bytes, records: seq<Record>, i: nat, written: Bytes, hashed: Bytes)
    returns (w: Bytes, h: Bytes)
    requires i < |records| && Holds(head, records, i, written, hashed)
    ensures Holds(head, records, i + 1, w, h)
  {
    OneMoreRecord(head, records, i, written, hashed);
    w, h := WriteRecord(written, hashed, records[i]);
  }

  /** The record loop: frames follow `head`, and the hasher and the count follow the frames. */
  method EncodeBody(head: Bytes, records: seq<Record>) returns (ok: bool, written: Bytes, hashed: Bytes, count: nat)
    ensures ok <==> AllLegal(records)
    ensures ok ==> written == head + Body(records) && hashed == Body(records) && count == |records|
  {
    written, hashed, count := head, [], 0;
    NothingHeld(head, records);
    for i := 0 to |records|
      invariant count == i <= U64_MAX && Holds(head, records, i, written, hashed)
      invariant forall j :: 0 <= j < i ==> Legal(records[j])
    {
      if !LegalLengths(|records[i].key|, |records[i].value|) {
        return false, written, hashed, count;
      }
      written, hashed := WriteNext(head, records, i, written, hashed);
      if count == U64_MAX {
        return false, written, hashed, count;
      }
      count := count + 1;
    }
    AllHeld(head, records, written, hashed);
    ok := true;
  }

  lemma AllHeld(head: Bytes, records: seq<Record>, written: Bytes, hashed: Bytes)
    requires Holds(head, records, |records|, written, hashed)
    ensures written == head + Body(records) && hashed == Body(records)
  {
    assert records[..|records|] == records;
  }

  lemma NothingHeld(head: Bytes, records: seq<Record>)
    ensures Holds(head, records, 0, head, [])
  {
    assert records[..0] == [];
  }

  method EncodeRecords(records: seq<Record>, sha: Bytes -> Bytes) returns (out: Option<Bytes>)
    ensures out == if AllLegal(records) then Some(Encoding(records, sha)) else None
  {
    var ok, written, hashed, count := EncodeBody(MAGIC, records);
    if !ok {
      return None;
    }
    FooterAssoc(MAGIC, hashed, END_MARK, LittleEndian(count, LONG), sha(hashed));
    out := Some(written + END_MARK + LittleEndian(count, LONG) + sha(hashed));
  }

  lemma FooterAssoc(magic: Bytes, body: Bytes, mark: Bytes, count: Bytes, digest: Bytes)
    ensures magic + body + mark + count + digest == magic + (body + (mark + (count + digest)))
  {
  }

  datatype ReadResult = Bad | End(next: nat) | Got(record: Record, next: nat)

  function Joined(done: seq<Record>, rest: Parsed): Parsed {
    if rest.Malformed? then Malformed else Parsed(done + rest.records, rest.rest)
  }

  /** One turn of the decode loop at `pos`, against the parse of what is left. */
  ghost predicate ReadsAs(b: Bytes, pos: nat, result: ReadResult)
    requires pos <= |b|
  {
    match result
    case Bad => ParseRecords(b[pos..]) == Malformed
    case End(next) => pos < next <= |b| && ParseRecords(b[pos..]) == Parsed([], b[next..])
    case Got(r, next) =>
      pos < next <= |b| && Legal(r) && b[pos..next] == Frame(r)
      && ParseRecords(b[pos..]) == Joined([r], ParseRecords(b[next..]))
  }

  lemma ReadsFrame(b: Bytes, pos: nat, next: nat, r: Record)
    requires pos <= next <= |b| && Legal(r) && b[pos..next] == Frame(r)
    ensures ParseRecords(b[pos..]) == Joined([r], ParseRecords(b[next..]))
  {
    SplitAt(b, pos, next);
    ParseFrame(r, b[next..]);
  }

  lemma SplitAt(b: Bytes, pos: nat, next: nat)
    requires pos <= next <= |b|
    ensures b[pos..] == b[pos..next] + b[next..]
  {
  }

  method ReadRecord(b: Bytes, pos: nat) returns (result: ReadResult)
    requires pos <= |b|
    ensures ReadsAs(b, pos, result)
  {
    ghost var rest := b[pos..];
    if |b| - pos < 4 {
      return Bad;
    }
    var keyLen := FromLittleEndian(b[pos..pos + 4]);
    assert rest[..4] == b[pos..pos + 4];
    if keyLen == U32_MAX {
      assert rest[4..] == b[pos + 4..];
      return End(pos + 4);
    }
    if |b| - pos < 8 {
      return Bad;
    }
    var valueLen := FromLittleEndian(b[pos + 4..pos + 8]);
    assert rest[4..8] == b[pos + 4..pos + 8];
    if !LegalLengths(keyLen, valueLen) || |b| - pos < 8 + keyLen + valueLen {
      return Bad;
    }
    var next := pos + 8 + keyLen + valueLen;
    var r := Record(b[pos + 8..pos + 8 + keyLen], b[pos + 8 + keyLen..next]);
    FramedAt(b, pos, r);
    ReadsFrame(b, pos, next, r);
    result := Got(r, next);
  }

  lemma JoinedSnoc(done: seq<Record>, r: Record, rest: Parsed)
    ensures Joined(done, Joined([r], rest)) == Joined(done + [r], rest)
  {
    if rest.Parsed? {
      assert done + ([r] + rest.records) == (done + [r]) + rest.records;
    }
  }

  /** One more record behind those already read. */
  lemma RecordDone(b: Bytes, start: nat, pos: nat, done: seq<Record>, turn: ReadResult)
    requires start <= pos <= |b| && turn.Got? && ReadsAs(b, pos, turn)
    requires Joined(done, ParseRecords(b[pos..])) == ParseRecords(b[start..])
    ensures pos < turn.next <= |b| && Body(done) + b[pos..turn.next] == Body(done + [turn.record])
    ensures Joined(done + [turn.record], ParseRecords(b[turn.next..])) == ParseRecords(b[start..])
  {
    BodySnoc(done, turn.record);
    JoinedSnoc(done, turn.record, ParseRecords(b[turn.next..]));
  }

  /** The record loop: everything up to the end mark, hashed and counted. */
  method DecodeBody(b: Bytes, start: nat)
    returns (ok: bool, records: seq<Record>, hashed: Bytes, count: nat, footer: Bytes)
    requires start <= |b|
    ensures ok ==>
              && ParseRecords(b[start..]) == Parsed(records, footer)
              && hashed == Body(records) && count == |records| <= U64_MAX
    ensures !ok ==> ParseRecords(b[start..]).Malformed? || |ParseRecords(b[start..]).records| > U64_MAX
  {
    var pos := start;
    records, hashed, count, footer := [], [], 0, [];
    var turn := ReadRecord(b, pos);
    while turn.Got?
      invariant start <= pos <= |b| && count == |records| <= U64_MAX && hashed == Body(records)
      invariant Joined(records, ParseRecords(b[pos..])) == ParseRecords(b[start..])
      invariant ReadsAs(b, pos, turn)
      decreases |b| - pos
    {
      RecordDone(b, start, pos, records, turn);
      hashed := hashed + b[pos..turn.next];
      records := records + [turn.record];
      pos := turn.next;
      if count == U64_MAX {
        return false, records, hashed, count, footer;
      }
      count := count + 1;
      turn := ReadRecord(b, pos);
    }
    ok := turn.End?;
    if ok {
      footer := b[turn.next..];
    }
  }

  method DecodeRecords(b: Bytes, sha: Bytes -> Bytes) returns (out: Option<seq<Record>>)
    ensures out == Decode(b, sha)
  {
    if |b| < 8 || b[..8] != MAGIC {
      return None;
    }
    var ok, records, hashed, count, footer := DecodeBody(b, 8);
    if !ok || |footer| < 40 {
      return None;
    }
    if FromLittleEndian(footer[..8]) != count || sha(hashed) != footer[8..40] || |footer| > 40 {
      return None;
    }
    out := Some(records);
  }
}
