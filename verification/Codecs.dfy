/** The job encodings sent to miners (hasher.rs) and the decoder of the example miner
    (cpu_stratum_miner.rs). */
module Codecs {
  import opened Options
  import opened Powers

  type Byte = b: nat | b < 256

  // ---- Integers, bytes and hexadecimal text -----------------------------------------

  function FromLE(bytes: seq<Byte>): nat {
    if bytes == [] then 0 else bytes[0] + 256 * FromLE(bytes[1..])
  }

  function FromBE(bytes: seq<Byte>): nat {
    if bytes == [] then 0 else 256 * FromBE(bytes[..|bytes| - 1]) + bytes[|bytes| - 1]
  }

  function ToLE(v: nat, n: nat): (bytes: seq<Byte>)
    ensures |bytes| == n
  {
    if n == 0 then [] else [v % 256] + ToLE(v / 256, n - 1)
  }

  function ToBE(v: nat, n: nat): (bytes: seq<Byte>)
    ensures |bytes| == n
  {
    if n == 0 then [] else ToBE(v / 256, n - 1) + [v % 256]
  }

  function Pow256(n: nat): nat {
    if n == 0 then 1 else 256 * Pow256(n - 1)
  }

  function Digit(d: nat): char
    requires d < 16
  {
    "0123456789abcdef"[d]
  }

  /** `hex::encode`, also the display of a hash. */
  function HexBytes(bytes: seq<Byte>): string {
    if bytes == [] then "" else [Digit(bytes[0] / 16), Digit(bytes[0] % 16)] + HexBytes(bytes[1..])
  }

  /** The last `n` hexadecimal digits of `v`: `{:0nx}` for every `v` below 16^n. */
  function HexNumber(v: nat, n: nat): (s: string)
    ensures |s| == n
  {
    if n == 0 then "" else HexNumber(v / 16, n - 1) + [Digit(v % 16)]
  }

  lemma {:induction false} LittleEndianRoundTrip(bytes: seq<Byte>)
    ensures ToLE(FromLE(bytes), |bytes|) == bytes && FromLE(bytes) < Pow256(|bytes|)
  {
    if bytes != [] {
      LittleEndianRoundTrip(bytes[1..]);
      assert bytes == [bytes[0]] + bytes[1..];
    }
  }

  lemma {:induction false} LittleEndianValue(v: nat, n: nat)
    requires v < Pow256(n)
    ensures FromLE(ToLE(v, n)) == v
    decreases n
  {
    if n > 0 {
      LittleEndianValue(v / 256, n - 1);
      assert ToLE(v, n)[1..] == ToLE(v / 256, n - 1);
    }
  }

  lemma EightBytes()
    ensures Pow256(8) == U64
  {
  }

  function Reversed(bytes: seq<Byte>): seq<Byte> {
    if bytes == [] then [] else Reversed(bytes[1..]) + [bytes[0]]
  }

  lemma {:induction false} ReversedSnoc(bytes: seq<Byte>, b: Byte)
    ensures Reversed(bytes + [b]) == [b] + Reversed(bytes)
  {
    if bytes == [] {
      assert bytes + [b] == [b];
    } else {
      assert (bytes + [b])[1..] == bytes[1..] + [b];
      ReversedSnoc(bytes[1..], b);
    }
  }

  lemma {:induction false} EndiansMirror(v: nat, n: nat)
    ensures Reversed(ToBE(v, n)) == ToLE(v, n)
    decreases n
  {
    if n > 0 {
      ReversedSnoc(ToBE(v / 256, n - 1), v % 256);
      EndiansMirror(v / 256, n - 1);
    }
  }

  lemma {:induction false} ReversedRead(bytes: seq<Byte>)
    ensures FromBE(Reversed(bytes)) == FromLE(bytes)
  {
    if bytes != [] {
      ReversedRead(bytes[1..]);
      var r := Reversed(bytes[1..]) + [bytes[0]];
      assert r[..|r| - 1] == Reversed(bytes[1..]);
    }
  }

  lemma {:induction false} HexConcat(a: seq<Byte>, b: seq<Byte>)
    ensures HexBytes(a + b) == HexBytes(a) + HexBytes(b)
  {
    if a == [] {
      assert a + b == b;
    } else {
      assert (a + b)[1..] == a[1..] + b;
      HexConcat(a[1..], b);
    }
  }

  lemma {:induction false} HexLength(bytes: seq<Byte>)
    ensures |HexBytes(bytes)| == 2 * |bytes|
  {
    if bytes != [] { HexLength(bytes[1..]); }
  }

  /** Printing a big-endian value with two digits a byte prints its bytes. */
  lemma {:induction false} HexOfBigEndian(bytes: seq<Byte>)
    ensures HexNumber(FromBE(bytes), 2 * |bytes|) == HexBytes(bytes)
  {
    if bytes != [] {
      var head, b := bytes[..|bytes| - 1], bytes[|bytes| - 1];
      var v := FromBE(bytes);
      assert v == 256 * FromBE(head) + b;
      assert v % 16 == b % 16 && v / 16 == 16 * FromBE(head) + b / 16;
      assert v / 16 / 16 == FromBE(head) && v / 16 % 16 == b / 16;
      HexOfBigEndian(head);
      HexConcat(head, [b]);
      assert head + [b] == bytes;
      assert HexBytes([b]) == [Digit(b / 16), Digit(b % 16)];
      assert HexNumber(v, 2 * |bytes|) == HexNumber(v / 16 / 16, 2 * |bytes| - 2) + [Digit(v / 16 % 16)]
        + [Digit(v % 16)];
    }
  }

  // ---- Encoders ----------------------------------------------------------------------

  /** The complete eight-byte words among the first four of `data`. */
  function Words(data: seq<Byte>): nat {
    if |data| >= 32 then 4 else |data| / 8
  }

  function Word(data: seq<Byte>, k: nat): seq<Byte>
    requires 8 * k + 8 <= |data|
  {
    data[8 * k..8 * k + 8]
  }

  function JobHeader(data: seq<Byte>): seq<nat> {
    seq(Words(data), k requires 0 <= k < Words(data) => FromLE(Word(data, k)))
  }

  method GenerateJobHeader(data: seq<Byte>) returns (ids: seq<nat>)
    ensures ids == JobHeader(data)
  {
    ids := [];
    for i := 0 to 4
      invariant ids == JobHeader(data)[..if i <= Words(data) then i else Words(data)]
    {
      var offset := i * 8;
      if offset + 8 <= |data| {
        ids := ids + [FromLE(data[offset..offset + 8])];
      }
    }
  }

  function IceriverJobParams(hash: seq<Byte>, timestamp: nat): string {
    HexBytes(hash) + HexBytes(ToLE(timestamp, 8))
  }

  /** `None` when the indexing of the ids panics. */
  method GenerateLargeJobParams(data: seq<Byte>, timestamp: nat) returns (r: Option<string>)
    requires timestamp < U64
    ensures |data| < 32 ==> r == None
    ensures |data| >= 32 ==> r == Some(IceriverJobParams(data[..32], timestamp))
  {
    var ids: seq<nat> := [];
    for i := 0 to 4
      invariant |ids| == if i <= Words(data) then i else Words(data)
      invariant forall k :: 0 <= k < |ids| ==> ids[k] == FromBE(Word(data, k))
    {
      var offset := i * 8;
      if offset + 8 <= |data| {
        ids := ids + [FromBE(data[offset..offset + 8])];
      }
    }
    var timestampBe := ToBE(timestamp, 8);
    var timestampSwapped := FromLE(timestampBe);
    ids := ids + [timestampSwapped];
    if |ids| < 5 {
      return None;
    }
    LargeEqualsIceriver(data, timestamp);
    return Some(HexNumber(ids[0], 16) + HexNumber(ids[1], 16) + HexNumber(ids[2], 16) + HexNumber(ids[3], 16)
      + HexNumber(ids[4], 16));
  }

  lemma TimestampIsLittleEndian(timestamp: nat)
    ensures HexNumber(FromLE(ToBE(timestamp, 8)), 16) == HexBytes(ToLE(timestamp, 8))
  {
    EndiansMirror(timestamp, 8);
    ReversedRead(ToBE(timestamp, 8));
    HexOfBigEndian(ToLE(timestamp, 8));
  }

  lemma LargeEqualsIceriver(data: seq<Byte>, timestamp: nat)
    requires |data| >= 32
    ensures HexNumber(FromBE(Word(data, 0)), 16) + HexNumber(FromBE(Word(data, 1)), 16)
          + HexNumber(FromBE(Word(data, 2)), 16) + HexNumber(FromBE(Word(data, 3)), 16)
          + HexNumber(FromLE(ToBE(timestamp, 8)), 16)
         == IceriverJobParams(data[..32], timestamp)
  {
    TimestampIsLittleEndian(timestamp);
    HexOfWord(data, 0);
    HexOfWord(data, 1);
    HexOfWord(data, 2);
    HexOfWord(data, 3);
    HexOfFirstWords(data);
  }

  lemma HexOfFirstWords(data: seq<Byte>)
    requires |data| >= 32
    ensures HexBytes(Word(data, 0)) + HexBytes(Word(data, 1)) + HexBytes(Word(data, 2))
            + HexBytes(Word(data, 3)) == HexBytes(data[..32])
  {
    HexOfFourWords(Word(data, 0), Word(data, 1), Word(data, 2), Word(data, 3));
    assert Word(data, 0) + Word(data, 1) + Word(data, 2) + Word(data, 3) == data[..32];
  }

  lemma HexOfWord(data: seq<Byte>, k: nat)
    requires 8 * k + 8 <= |data|
    ensures HexNumber(FromBE(Word(data, k)), 16) == HexBytes(Word(data, k))
  {
    HexOfBigEndian(Word(data, k));
  }

  lemma HexOfFourWords(a: seq<Byte>, b: seq<Byte>, c: seq<Byte>, d: seq<Byte>)
    ensures HexBytes(a + b + c + d) == HexBytes(a) + HexBytes(b) + HexBytes(c) + HexBytes(d)
  {
    HexConcat(a, b);
    HexConcat(a + b, c);
    HexConcat(a + b + c, d);
  }

  /** The two encodings of a 32-byte hash agree and are 80 characters long; their hash part and
      timestamp part determine hash and timestamp. */
  lemma JobParamsAreInjective(h: seq<Byte>, t: nat, h': seq<Byte>, t': nat)
    requires |h| == |h'| == 32 && t < U64 && t' < U64
    ensures |IceriverJobParams(h, t)| == 80
    ensures IceriverJobParams(h, t) == IceriverJobParams(h', t') ==> h == h' && t == t'
  {
    HexLength(h);
    HexLength(h');
    HexLength(ToLE(t, 8));
    HexLength(ToLE(t', 8));
    if IceriverJobParams(h, t) == IceriverJobParams(h', t') {
      assert IceriverJobParams(h, t)[..64] == HexBytes(h) && IceriverJobParams(h', t')[..64] == HexBytes(h');
      assert IceriverJobParams(h, t)[64..] == HexBytes(ToLE(t, 8))
        && IceriverJobParams(h', t')[64..] == HexBytes(ToLE(t', 8));
      HexInjective(h, h');
      HexInjective(ToLE(t, 8), ToLE(t', 8));
      EightBytes();
      LittleEndianValue(t, 8);
      LittleEndianValue(t', 8);
    }
  }

  lemma {:induction false} HexInjective(a: seq<Byte>, b: seq<Byte>)
    requires |a| == |b| && HexBytes(a) == HexBytes(b)
    ensures a == b
  {
    if a != [] {
      var x, y := HexBytes(a), HexBytes(b);
      assert x[0] == y[0] && x[1] == y[1];
      DigitInjective(a[0] / 16, b[0] / 16);
      DigitInjective(a[0] % 16, b[0] % 16);
      assert x[2..] == HexBytes(a[1..]) && y[2..] == HexBytes(b[1..]);
      HexInjective(a[1..], b[1..]);
      assert a == [a[0]] + a[1..] && b == [b[0]] + b[1..];
    }
  }

  lemma DigitInjective(a: nat, b: nat)
    requires a < 16 && b < 16 && Digit(a) == Digit(b)
    ensures a == b
  {
  }

  // ---- The decoder --------------------------------------------------------------------

  datatype Value =
    | Null
    | Bool(b: bool)
    | Integer(n: int)
    | Float(f: real)
    | Text(s: string)
    | Array(items: seq<Value>)
    | Object(fields: map<string, Value>)
  {
    function Get(key: string): Option<Value> {
      if Object? && key in fields then Some(fields[key]) else None
    }

    function AsArray(): Option<seq<Value>> {
      if Array? then Some(items) else None
    }

    function AsStr(): Option<string> {
      if Text? then Some(s) else None
    }

    function AsU64(): Option<nat> {
      if Integer? && 0 <= n < U64 then Some(n) else None
    }
  }

  datatype Job = Job(jobId: string, prePowHash: seq<Byte>, timestamp: nat)

  /** A `mining.notify` in the legacy format. */
  predicate WellFormed(v: Value) {
    && v.Get("params").Some? && v.Get("params").value.Array?
    && (var params := v.Get("params").value.items;
        && |params| >= 3 && params[0].Text? && params[1].Array? && params[2].AsU64().Some?
        && |params[1].items| >= 4 && forall k :: 0 <= k < 4 ==> params[1].items[k].AsU64().Some?)
  }

  function Chunk(v: Value, k: nat): nat
    requires WellFormed(v) && k < 4
  {
    v.Get("params").value.items[1].items[k].AsU64().value
  }

  /** The bytes the four chunks spell. */
  function ChunkBytes(v: Value): (bytes: seq<Byte>)
    requires WellFormed(v)
    ensures |bytes| == 32
  {
    ToLE(Chunk(v, 0), 8) + ToLE(Chunk(v, 1), 8) + ToLE(Chunk(v, 2), 8) + ToLE(Chunk(v, 3), 8)
  }

  function Decoded(v: Value): Option<Job> {
    if !WellFormed(v) then None
    else
      var params := v.Get("params").value.items;
      Some(Job(params[0].s, ChunkBytes(v), params[2].n))
  }

  method ParseNotify(v: Value) returns (r: Option<Job>)
    ensures r == Decoded(v)
  {
    var p := v.Get("params");
    if p.None? || p.value.AsArray().None? {
      return None;
    }
    var params := p.value.items;
    if |params| < 3 {
      return None;
    }
    if params[0].AsStr().None? || params[1].AsArray().None? {
      return None;
    }
    var chunks := params[1].items;
    if |chunks| < 4 {
      return None;
    }
    var bytes := new Byte[32](i => 0);
    for i := 0 to 4
      invariant forall k :: 0 <= k < i ==> chunks[k].AsU64().Some?
      invariant forall k :: 0 <= k < i ==> bytes[8 * k..8 * k + 8] == ToLE(chunks[k].AsU64().value, 8)
    {
      if chunks[i].AsU64().None? {
        return None;
      }
      var le := ToLE(chunks[i].AsU64().value, 8);
      label Before:
      forall j | 0 <= j < 8 { bytes[i * 8 + j] := le[j]; }
      forall k | 0 <= k < i ensures bytes[8 * k..8 * k + 8] == ToLE(chunks[k].AsU64().value, 8) {
        assert bytes[8 * k..8 * k + 8] == old@Before(bytes[8 * k..8 * k + 8]);
      }
      assert bytes[8 * i..8 * i + 8] == le;
    }
    if params[2].AsU64().None? {
      return None;
    }
    r := Some(Job(params[0].s, bytes[..], params[2].n));
    forall k | 0 <= k < 4 ensures Word(bytes[..], k) == Word(ChunkBytes(v), k) {
      assert bytes[..][8 * k..8 * k + 8] == bytes[8 * k..8 * k + 8];
      WordOfChunks(v, k);
    }
    SameWords(bytes[..], ChunkBytes(v));
  }

  /** The notification the bridge sends for a job. */
  function Notify(jobId: string, hash: seq<Byte>, timestamp: nat): Value {
    var ids := JobHeader(hash);
    var words := seq(|ids|, k requires 0 <= k < |ids| => Integer(ids[k]));
    Object(map["params" := Array([Text(jobId), Array(words), Integer(timestamp)])])
  }

  lemma WordOfChunks(v: Value, k: nat)
    requires WellFormed(v) && k < 4
    ensures Word(ChunkBytes(v), k) == ToLE(Chunk(v, k), 8)
  {
  }

  /** Decoding undoes encoding: the miner recovers exactly the job the bridge encoded. */
  lemma DecodeUndoesEncode(jobId: string, hash: seq<Byte>, timestamp: nat)
    requires |hash| == 32 && timestamp < U64
    ensures Decoded(Notify(jobId, hash, timestamp)) == Some(Job(jobId, hash, timestamp))
  {
    var v := Notify(jobId, hash, timestamp);
    NotifyIsWellFormed(jobId, hash, timestamp);
    forall k | 0 <= k < 4 ensures Word(ChunkBytes(v), k) == Word(hash, k) {
      WordOfChunks(v, k);
    }
    SameWords(ChunkBytes(v), hash);
  }

  lemma NotifyIsWellFormed(jobId: string, hash: seq<Byte>, timestamp: nat)
    requires |hash| == 32 && timestamp < U64
    ensures WellFormed(Notify(jobId, hash, timestamp))
    ensures forall k :: 0 <= k < 4 ==> ToLE(Chunk(Notify(jobId, hash, timestamp), k), 8) == Word(hash, k)
  {
    EightBytes();
    forall k | 0 <= k < 4 ensures FromLE(Word(hash, k)) < U64 && ToLE(FromLE(Word(hash, k)), 8) == Word(hash, k) {
      LittleEndianRoundTrip(Word(hash, k));
    }
  }

  lemma SameWords(a: seq<Byte>, b: seq<Byte>)
    requires |a| == |b| == 32 && forall k :: 0 <= k < 4 ==> Word(a, k) == Word(b, k)
    ensures a == b
  {
    forall i | 0 <= i < 32 ensures a[i] == b[i] {
      assert Word(a, i / 8)[i % 8] == Word(b, i / 8)[i % 8];
    }
  }

  /** Encoding undoes decoding: re-encoding a decoded hash gives the four numbers received. */
  lemma EncodeUndoesDecode(v: Value)
    requires WellFormed(v)
    ensures JobHeader(Decoded(v).value.prePowHash) == [Chunk(v, 0), Chunk(v, 1), Chunk(v, 2), Chunk(v, 3)]
  {
    EightBytes();
    forall k | 0 <= k < 4 ensures FromLE(Word(ChunkBytes(v), k)) == Chunk(v, k) {
      WordOfChunks(v, k);
      LittleEndianValue(Chunk(v, k), 8);
    }
  }
}
