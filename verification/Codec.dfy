/**
  Byte formats of the two stores: big-endian integers, bitcoin variable-length integers and
  byte strings, outpoints, sign descriptors, kid and baby records, and the prefixed keys.
  Every decoder undoes its encoder on any input that continues after the record.
*/
module Codec {
  import opened Chain
  import opened NurseryLedger
  import opened NurseryBuckets

  datatype Parse<+T> = Fail | Ok(value: T, rest: seq<byte>) {
    predicate IsFailure() {
      Fail?
    }

    function PropagateFailure<U>(): Parse<U>
      requires Fail?
    {
      Fail
    }

    function Extract(): (T, seq<byte>)
      requires Ok?
    {
      (value, rest)
    }
  }

  /****** Integers ******/

  function Pow256(n: nat): nat {
    if n == 0 then 1 else 256 * Pow256(n - 1)
  }

  /** `v` modulo 256^n in `n` bytes, most significant first. */
  function BE(n: nat, v: nat): (s: seq<byte>)
    ensures |s| == n
    decreases n, v
  {
    if n == 0 then [] else BE(n - 1, v / 256) + [v % 256]
  }

  function FromBE(s: seq<byte>): nat {
    if s == [] then 0 else 256 * FromBE(s[..|s| - 1]) + s[|s| - 1]
  }

  function LE(n: nat, v: nat): (s: seq<byte>)
    ensures |s| == n
    decreases n, v
  {
    if n == 0 then [] else [v % 256] + LE(n - 1, v / 256)
  }

  function FromLE(s: seq<byte>): nat {
    if s == [] then 0 else s[0] + 256 * FromLE(s[1..])
  }

  lemma {:induction false} FromBEofBE(n: nat, v: nat)
    requires v < Pow256(n)
    ensures FromBE(BE(n, v)) == v
  {
    if n > 0 {
      FromBEofBE(n - 1, v / 256);
      assert BE(n, v)[..n - 1] == BE(n - 1, v / 256);
    }
  }

  lemma {:induction false} FromLEofLE(n: nat, v: nat)
    requires v < Pow256(n)
    ensures FromLE(LE(n, v)) == v
  {
    if n > 0 {
      FromLEofLE(n - 1, v / 256);
      assert LE(n, v)[1..] == LE(n - 1, v / 256);
    }
  }

  lemma Widths()
    ensures Pow256(1) == 0x100 && Pow256(2) == 0x1_0000
    ensures Pow256(4) == 0x1_0000_0000 && Pow256(8) == 0x1_0000_0000_0000_0000
  {
    assert Pow256(2) == 256 * Pow256(1);
    assert Pow256(3) == 256 * Pow256(2);
    assert Pow256(4) == 256 * Pow256(3);
    assert Pow256(5) == 256 * Pow256(4);
    assert Pow256(6) == 256 * Pow256(5);
    assert Pow256(7) == 256 * Pow256(6);
    assert Pow256(8) == 256 * Pow256(7);
  }

  /** Byte order on equal lengths, as bytes.Compare and the bolt cursor use it. */
  predicate LexLess(s: seq<byte>, t: seq<byte>)
    requires |s| == |t|
  {
    s != [] && (s[0] < t[0] || (s[0] == t[0] && LexLess(s[1..], t[1..])))
  }

  lemma {:induction false} LexLessSnoc(s: seq<byte>, t: seq<byte>, x: byte, y: byte)
    requires |s| == |t|
    ensures LexLess(s + [x], t + [y]) <==> LexLess(s, t) || (s == t && x < y)
  {
    if s != [] {
      LexLessSnoc(s[1..], t[1..], x, y);
      assert (s + [x])[1..] == s[1..] + [x] && (t + [y])[1..] == t[1..] + [y];
      assert s == [s[0]] + s[1..] && t == [t[0]] + t[1..];
    }
  }

  lemma {:induction false} FromBEInjective(s: seq<byte>, t: seq<byte>)
    requires |s| == |t|
    ensures FromBE(s) == FromBE(t) <==> s == t
  {
    if s != [] {
      var n := |s| - 1;
      FromBEInjective(s[..n], t[..n]);
      assert s == s[..n] + [s[n]] && t == t[..n] + [t[n]];
    }
  }

  /** Big-endian byte order is numeric order. */
  lemma {:induction false} ByteOrderIsNumeric(s: seq<byte>, t: seq<byte>)
    requires |s| == |t|
    ensures LexLess(s, t) <==> FromBE(s) < FromBE(t)
  {
    if s != [] {
      var n := |s| - 1;
      ByteOrderIsNumeric(s[..n], t[..n]);
      FromBEInjective(s[..n], t[..n]);
      LexLessSnoc(s[..n], t[..n], s[n], t[n]);
      assert s == s[..n] + [s[n]] && t == t[..n] + [t[n]];
    }
  }

  /** int64 values are stored as their uint64 bit pattern. */
  function ToU64(v: int): int {
    if v < 0 then v + 0x1_0000_0000_0000_0000 else v
  }

  function FromU64(u: int): int {
    if u >= 0x8000_0000_0000_0000 then u - 0x1_0000_0000_0000_0000 else u
  }

  predicate IsInt64(v: int) {
    -0x8000_0000_0000_0000 <= v < 0x8000_0000_0000_0000
  }

  predicate IsU16(v: int) {
    0 <= v < 0x1_0000
  }

  predicate IsU32(v: int) {
    0 <= v < 0x1_0000_0000
  }

  /****** Reading ******/

  /** io.ReadFull */
  function ReadFull(n: nat, s: seq<byte>): Parse<seq<byte>> {
    if |s| < n then Fail else Ok(s[..n], s[n..])
  }

  /**
    A bare Read into the front of a scratch buffer: it fails only at the end of the input, and a
    short read leaves the old bytes in place.
  */
  function ReadInto(scratch: seq<byte>, n: nat, s: seq<byte>): Parse<seq<byte>>
    requires n <= |scratch|
  {
    if n > 0 && s == [] then Fail
    else
      var k := if |s| < n then |s| else n;
      Ok(s[..k] + scratch[k..], s[k..])
  }

  lemma Assoc(a: seq<byte>, b: seq<byte>, c: seq<byte>)
    ensures (a + b) + c == a + (b + c)
  {
  }

  /** The three parts of a concatenation. */
  lemma Parts(a: seq<byte>, b: seq<byte>, c: seq<byte>)
    ensures var s, n := a + (b + c), |a| + |b|; s[..|a|] == a && s[|a|..n] == b && s[n..] == c
  {
  }

  lemma FourParts(a: seq<byte>, b: seq<byte>, c: seq<byte>, d: seq<byte>)
    requires |a| == 8 && |b| == 37 && |c| == 37
    ensures var s := a + (b + (c + d)); s[..8] == a && s[8..45] == b && s[45..82] == c && s[82..] == d
  {
    assert a + (b + (c + d)) == a + b + c + d;
  }

  /** Slicing after a prefix is slicing what follows it. */
  lemma SliceAfter(s: seq<byte>, n: nat, i: nat, j: nat)
    requires n <= |s| && i <= j && n + j <= |s|
    ensures s[n..][i..j] == s[n + i..n + j] && s[n..][i..] == s[n + i..]
  {
  }

  lemma ReadFullExact(f: seq<byte>, rest: seq<byte>)
    ensures ReadFull(|f|, f + rest) == Ok(f, rest)
  {
    assert (f + rest)[..|f|] == f && (f + rest)[|f|..] == rest;
  }

  lemma ReadIntoExact(scratch: seq<byte>, f: seq<byte>, rest: seq<byte>)
    requires 0 < |f| <= |scratch|
    ensures ReadInto(scratch, |f|, f + rest) == Ok(f + scratch[|f|..], rest)
    ensures (f + scratch[|f|..])[..|f|] == f
  {
    assert (f + rest)[..|f|] == f && (f + rest)[|f|..] == rest;
  }

  function ReadBE(n: nat, s: seq<byte>): Parse<nat> {
    var (f, s1) :- ReadFull(n, s);
    Ok(FromBE(f), s1)
  }

  lemma ReadBEExact(n: nat, v: nat, rest: seq<byte>)
    requires v < Pow256(n)
    ensures ReadBE(n, BE(n, v) + rest) == Ok(v, rest)
  {
    ReadFullExact(BE(n, v), rest);
    FromBEofBE(n, v);
  }

  function ReadLE(n: nat, s: seq<byte>): Parse<nat> {
    var (f, s1) :- ReadFull(n, s);
    Ok(FromLE(f), s1)
  }

  lemma ReadLEExact(n: nat, v: nat, rest: seq<byte>)
    requires v < Pow256(n)
    ensures ReadLE(n, LE(n, v) + rest) == Ok(v, rest)
  {
    ReadFullExact(LE(n, v), rest);
    FromLEofLE(n, v);
  }

  /** binary.Write and binary.Read of a bool. */
  function WriteBool(b: bool): seq<byte> {
    if b then [1] else [0]
  }

  function ReadBool(s: seq<byte>): Parse<bool> {
    var (f, s1) :- ReadFull(1, s);
    Ok(f[0] != 0, s1)
  }

  lemma ReadBoolExact(b: bool, rest: seq<byte>)
    ensures ReadBool(WriteBool(b) + rest) == Ok(b, rest)
  {
    ReadFullExact(WriteBool(b), rest);
  }

  /****** Variable-length integers and byte strings ******/

  function WriteVarInt(v: nat): seq<byte> {
    if v < 0xfd then [v]
    else if v <= 0xffff then [0xfd] + LE(2, v)
    else if v <= 0xffff_ffff then [0xfe] + LE(4, v)
    else [0xff] + LE(8, v)
  }

  /** Values that fit in fewer bytes are refused. */
  function ReadVarInt(s: seq<byte>): Parse<nat> {
    var (d, s1) :- ReadFull(1, s);
    if d[0] == 0xff then
      var (v, s2) :- ReadLE(8, s1);
      if v < 0x1_0000_0000 then Fail else Ok(v, s2)
    else if d[0] == 0xfe then
      var (v, s2) :- ReadLE(4, s1);
      if v < 0x1_0000 then Fail else Ok(v, s2)
    else if d[0] == 0xfd then
      var (v, s2) :- ReadLE(2, s1);
      if v < 0xfd then Fail else Ok(v, s2)
    else Ok(d[0], s1)
  }

  lemma VarIntRoundTrip(v: nat, rest: seq<byte>)
    requires v < 0x1_0000_0000_0000_0000
    ensures ReadVarInt(WriteVarInt(v) + rest) == Ok(v, rest)
  {
    Widths();
    if v < 0xfd {
      ReadFullExact([v], rest);
    } else {
      var n, d: byte := if v <= 0xffff then 2 else if v <= 0xffff_ffff then 4 else 8,
                        if v <= 0xffff then 0xfd else if v <= 0xffff_ffff then 0xfe else 0xff;
      assert WriteVarInt(v) == [d] + LE(n, v);
      Assoc([d], LE(n, v), rest);
      ReadFullExact([d], LE(n, v) + rest);
      ReadLEExact(n, v, rest);
    }
  }

  function WriteVarBytes(b: seq<byte>): seq<byte> {
    WriteVarInt(|b|) + b
  }

  function ReadVarBytes(max: nat, s: seq<byte>): Parse<seq<byte>> {
    var (n, s1) :- ReadVarInt(s);
    if n > max then Fail else ReadFull(n, s1)
  }

  /** A byte string comes back exactly when it is within the reader's limit. */
  lemma VarBytesRoundTrip(b: seq<byte>, max: nat, rest: seq<byte>)
    requires |b| < 0x1_0000_0000_0000_0000
    ensures ReadVarBytes(max, WriteVarBytes(b) + rest) == if |b| <= max then Ok(b, rest) else Fail
  {
    Assoc(WriteVarInt(|b|), b, rest);
    VarIntRoundTrip(|b|, b + rest);
    ReadFullExact(b, rest);
  }

  /****** Outpoints ******/

  predicate ValidOutPoint(o: OutPoint) {
    |o.hash| == 32 && IsU32(o.index)
  }

  function Zeros(n: nat): (s: seq<byte>)
    ensures |s| == n
  {
    if n == 0 then [] else [0] + Zeros(n - 1)
  }

  function WriteOutpoint(o: OutPoint): seq<byte> {
    WriteVarBytes(o.hash) + BE(4, o.index)
  }

  /** A hash of fewer than 32 bytes is padded with zeros; the index is a bare Read. */
  function ReadOutpoint(s: seq<byte>): Parse<OutPoint> {
    var (txid, s1) :- ReadVarBytes(32, s);
    var (f, s2) :- ReadInto(Zeros(4), 4, s1);
    Ok(OutPoint(txid + Zeros(if |txid| <= 32 then 32 - |txid| else 0), FromBE(f)), s2)
  }

  lemma OutpointRoundTrip(o: OutPoint, rest: seq<byte>)
    requires ValidOutPoint(o)
    ensures ReadOutpoint(WriteOutpoint(o) + rest) == Ok(o, rest)
  {
    Widths();
    Assoc(WriteVarBytes(o.hash), BE(4, o.index), rest);
    VarBytesRoundTrip(o.hash, 32, BE(4, o.index) + rest);
    ReadIntoExact(Zeros(4), BE(4, o.index), rest);
    FromBEofBE(4, o.index);
    assert o.hash + [] == o.hash;
    assert BE(4, o.index) + Zeros(4)[4..] == BE(4, o.index);
  }

  /** One length byte, the 32 bytes of the hash, and the index in four big-endian bytes. */
  lemma OutpointLayout(o: OutPoint)
    requires ValidOutPoint(o)
    ensures var s := WriteOutpoint(o);
            |s| == 37 && s[0] == 32 && s[1..33] == o.hash && FromBE(s[33..]) == o.index
  {
    Widths();
    FromBEofBE(4, o.index);
    var s := WriteOutpoint(o);
    assert s == [32] + o.hash + BE(4, o.index);
    assert s[33..] == BE(4, o.index);
  }

  /****** Keys ******/

  const CRIB: seq<byte> := [0x63, 0x72, 0x69, 0x62]
  const PSCL: seq<byte> := [0x70, 0x73, 0x63, 0x6c]
  const KNDR: seq<byte> := [0x6b, 0x6e, 0x64, 0x72]
  const GRAD: seq<byte> := [0x67, 0x72, 0x61, 0x64]

  function PrefixOutputKey(prefix: seq<byte>, o: OutPoint): seq<byte> {
    prefix + WriteOutpoint(o)
  }

  /** Go's copy: overwrite the front of `dst`. */
  function CopyOver(dst: seq<byte>, src: seq<byte>): seq<byte> {
    if |src| <= |dst| then src + dst[|src|..] else src[..|dst|]
  }

  /** Distinct states or outpoints have distinct keys, and overwriting the prefix re-keys the output. */
  lemma KeysAreInjective(p: seq<byte>, q: seq<byte>, o1: OutPoint, o2: OutPoint)
    requires |p| == |q| == 4 && ValidOutPoint(o1) && ValidOutPoint(o2)
    ensures PrefixOutputKey(p, o1) == PrefixOutputKey(q, o2) <==> p == q && o1 == o2
    ensures CopyOver(PrefixOutputKey(p, o1), q) == PrefixOutputKey(q, o1)
  {
    var k1, k2 := PrefixOutputKey(p, o1), PrefixOutputKey(q, o2);
    assert k1[..4] == p && k2[..4] == q;
    assert k1[4..] == WriteOutpoint(o1) && k2[4..] == WriteOutpoint(o2);
    OutpointRoundTrip(o1, []);
    OutpointRoundTrip(o2, []);
    assert WriteOutpoint(o1) + [] == WriteOutpoint(o1) && WriteOutpoint(o2) + [] == WriteOutpoint(o2);
  }

  function StatePrefix(p: Prefix): seq<byte> {
    match p
    case CribP => CRIB
    case PsclP => PSCL
    case KndrP => KNDR
    case GradP => GRAD
  }

  /** The bytes under which an output is stored name its state and its outpoint, and nothing else. */
  lemma KeyBytesFaithful(k1: Key, k2: Key)
    requires ValidOutPoint(k1.op) && ValidOutPoint(k2.op)
    ensures PrefixOutputKey(StatePrefix(k1.prefix), k1.op) == PrefixOutputKey(StatePrefix(k2.prefix), k2.op) <==>
              k1 == k2
  {
    KeysAreInjective(StatePrefix(k1.prefix), StatePrefix(k2.prefix), k1.op, k2.op);
    assert CRIB[0] != PSCL[0] && CRIB[0] != KNDR[0] && CRIB[0] != GRAD[0];
    assert PSCL[0] != KNDR[0] && PSCL[0] != GRAD[0] && KNDR[0] != GRAD[0];
  }

  /****** Sign descriptors ******/

  /** The widths of the fields. */
  predicate ValidSignDesc(d: SignDesc) {
    && IsU32(d.family) && IsU32(d.index) && IsU32(d.hashType) && IsInt64(d.output.value)
    && (d.pubKey.Some? ==> |d.pubKey.value| < 0x1_0000_0000)
    && |d.singleTweak| < 0x1_0000_0000 && |d.doubleTweak| < 0x1_0000_0000
    && |d.witnessScript| < 0x1_0000_0000 && |d.output.script| < 0x1_0000_0000
  }

  /** Which byte strings btcec.ParsePubKey takes for a point of the curve. */
  type KeyTest = seq<byte> -> bool

  /** The limits that the reader enforces. */
  predicate WithinLimits(keys: KeyTest, d: SignDesc) {
    && (d.pubKey.Some? ==> |d.pubKey.value| <= 34 && keys(d.pubKey.value))
    && |d.singleTweak| <= 32 && |d.doubleTweak| <= 32
    && (d.singleTweak == [] || d.doubleTweak == [])
    && |d.witnessScript| <= 500 && |d.output.script| <= 80
  }

  function WriteTxOut(o: TxOut): seq<byte>
    requires IsInt64(o.value)
  {
    BE(8, ToU64(o.value)) + WriteVarBytes(o.script)
  }

  function ReadTxOut(s: seq<byte>): Parse<TxOut> {
    var (v, s1) :- ReadBE(8, s);
    var (script, s2) :- ReadVarBytes(80, s1);
    Ok(TxOut(FromU64(v), script), s2)
  }

  lemma TxOutRoundTrip(o: TxOut, rest: seq<byte>)
    requires IsInt64(o.value) && |o.script| < 0x1_0000_0000
    ensures ReadTxOut(WriteTxOut(o) + rest) == if |o.script| <= 80 then Ok(o, rest) else Fail
  {
    Widths();
    Assoc(BE(8, ToU64(o.value)), WriteVarBytes(o.script), rest);
    ReadBEExact(8, ToU64(o.value), WriteVarBytes(o.script) + rest);
    VarBytesRoundTrip(o.script, 80, rest);
  }

  function WritePubKey(k: Option<seq<byte>>): seq<byte> {
    WriteBool(k.Some?) + (if k.Some? then WriteVarBytes(k.value) else [])
  }

  function ReadPubKey(keys: KeyTest, s: seq<byte>): Parse<Option<seq<byte>>> {
    var (has, s1) :- ReadBool(s);
    if !has then Ok(None, s1)
    else
      var (k, s2) :- ReadVarBytes(34, s1);
      if keys(k) then Ok(Some(k), s2) else Fail
  }

  lemma PubKeyRoundTrip(keys: KeyTest, k: Option<seq<byte>>, rest: seq<byte>)
    requires k.Some? ==> |k.value| < 0x1_0000_0000
    ensures ReadPubKey(keys, WritePubKey(k) + rest) ==
            if k.Some? && (|k.value| > 34 || !keys(k.value)) then Fail else Ok(k, rest)
  {
    var tail := if k.Some? then WriteVarBytes(k.value) else [];
    Assoc(WriteBool(k.Some?), tail, rest);
    ReadBoolExact(k.Some?, tail + rest);
    if k.Some? {
      VarBytesRoundTrip(k.value, 34, rest);
    } else {
      assert tail + rest == rest;
    }
  }

  function WriteScripts(d: SignDesc): seq<byte>
    requires ValidSignDesc(d)
  {
    WriteVarBytes(d.witnessScript) + (WriteTxOut(d.output) + BE(4, d.hashType))
  }

  function WriteSignDesc(d: SignDesc): seq<byte>
    requires ValidSignDesc(d)
  {
    BE(4, d.family) + (BE(4, d.index) + (WritePubKey(d.pubKey) + WriteTweaks(d)))
  }

  function WriteTweaks(d: SignDesc): seq<byte>
    requires ValidSignDesc(d)
  {
    WriteVarBytes(d.singleTweak) + (WriteVarBytes(d.doubleTweak) + WriteScripts(d))
  }

  function ReadScripts(s: seq<byte>): Parse<(seq<byte>, TxOut, nat)> {
    var (script, s1) :- ReadVarBytes(500, s);
    var (output, s2) :- ReadTxOut(s1);
    var (hashType, s3) :- ReadBE(4, s2);
    Ok((script, output, hashType), s3)
  }

  function ReadSignDesc(keys: KeyTest, s: seq<byte>): Parse<SignDesc> {
    var (family, s1) :- ReadBE(4, s);
    var (index, s2) :- ReadBE(4, s1);
    var (pubKey, s3) :- ReadPubKey(keys, s2);
    ReadTweaks(family, index, pubKey, s3)
  }

  /** At most one of the two tweaks may be present. */
  function ReadTweaks(family: nat, index: nat, pubKey: Option<seq<byte>>, s: seq<byte>): Parse<SignDesc> {
    var (single, s1) :- ReadVarBytes(32, s);
    var (double, s2) :- ReadVarBytes(32, s1);
    if single != [] && double != [] then Fail
    else
      var (tail, s3) :- ReadScripts(s2);
      Ok(SignDesc(family, index, pubKey, single, double, tail.0, tail.1, tail.2), s3)
  }

  lemma ScriptsRoundTrip(d: SignDesc, rest: seq<byte>)
    requires ValidSignDesc(d)
    ensures ReadScripts(WriteScripts(d) + rest) ==
            if |d.witnessScript| <= 500 && |d.output.script| <= 80
            then Ok((d.witnessScript, d.output, d.hashType), rest) else Fail
  {
    Widths();
    var t2 := BE(4, d.hashType);
    var t1 := WriteTxOut(d.output) + t2;
    Assoc(WriteVarBytes(d.witnessScript), t1, rest);
    Assoc(WriteTxOut(d.output), t2, rest);
    VarBytesRoundTrip(d.witnessScript, 500, t1 + rest);
    TxOutRoundTrip(d.output, t2 + rest);
    ReadBEExact(4, d.hashType, rest);
  }

  lemma TweaksRoundTrip(keys: KeyTest, d: SignDesc, rest: seq<byte>)
    requires ValidSignDesc(d)
    ensures ReadTweaks(d.family, d.index, d.pubKey, WriteTweaks(d) + rest) ==
            if WithinLimits(keys, d.(pubKey := None)) then Ok(d, rest) else Fail
  {
    var t2 := WriteScripts(d);
    var t1 := WriteVarBytes(d.doubleTweak) + t2;
    Assoc(WriteVarBytes(d.singleTweak), t1, rest);
    Assoc(WriteVarBytes(d.doubleTweak), t2, rest);
    VarBytesRoundTrip(d.singleTweak, 32, t1 + rest);
    VarBytesRoundTrip(d.doubleTweak, 32, t2 + rest);
    ScriptsRoundTrip(d, rest);
  }

  /** A sign descriptor comes back exactly when it is within the reader's limits; otherwise reading fails. */
  lemma SignDescRoundTrip(keys: KeyTest, d: SignDesc, rest: seq<byte>)
    requires ValidSignDesc(d)
    ensures ReadSignDesc(keys, WriteSignDesc(d) + rest) == if WithinLimits(keys, d) then Ok(d, rest) else Fail
  {
    Widths();
    var t3 := WriteTweaks(d);
    var t2 := WritePubKey(d.pubKey) + t3;
    var t1 := BE(4, d.index) + t2;
    Assoc(BE(4, d.family), t1, rest);
    Assoc(BE(4, d.index), t2, rest);
    Assoc(WritePubKey(d.pubKey), t3, rest);
    ReadBEExact(4, d.family, t1 + rest);
    ReadBEExact(4, d.index, t2 + rest);
    PubKeyRoundTrip(keys, d.pubKey, t3 + rest);
    TweaksRoundTrip(keys, d, rest);
  }

  /****** Kid and baby records ******/

  predicate ValidKid(k: Kid) {
    && IsInt64(k.amount) && ValidOutPoint(k.op) && ValidOutPoint(k.chan)
    && IsU32(k.blocksToMaturity) && IsU32(k.absoluteMaturity) && IsU32(k.confHeight) && IsU16(k.witnessType)
    && ValidSignDesc(k.signDesc)
  }

  function WriteMaturity(k: Kid): seq<byte>
    requires ValidKid(k)
  {
    BE(4, k.blocksToMaturity) + (BE(4, k.absoluteMaturity) + (BE(4, k.confHeight) + BE(2, k.witnessType)))
  }

  function WriteKid(k: Kid): seq<byte>
    requires ValidKid(k)
  {
    BE(8, ToU64(k.amount)) + (WriteOutpoint(k.op) + (WriteOutpoint(k.chan) + WriteKidTail(k)))
  }

  function WriteKidTail(k: Kid): seq<byte>
    requires ValidKid(k)
  {
    WriteBool(k.isHtlc) + (WriteMaturity(k) + WriteSignDesc(k.signDesc))
  }

  /** The three heights and the witness type, all read through one scratch buffer. */
  function ReadMaturity(scratch: seq<byte>, s: seq<byte>): Parse<(nat, nat, nat, nat)>
    requires |scratch| == 8
  {
    var (b1, s1) :- ReadInto(scratch, 4, s);
    var (b2, s2) :- ReadInto(b1, 4, s1);
    var (b3, s3) :- ReadInto(b2, 4, s2);
    var (b4, s4) :- ReadInto(b3, 2, s3);
    Ok((FromBE(b1[..4]), FromBE(b2[..4]), FromBE(b3[..4]), FromBE(b4[..2])), s4)
  }

  function ReadKid(keys: KeyTest, s: seq<byte>): Parse<Kid> {
    var (head, s1) :- ReadKidHead(s);
    ReadKidTail(keys, head.0, FromU64(FromBE(head.0)), head.1, head.2, s1)
  }

  /** The amount, as the scratch buffer it is read into, and the two outpoints. */
  function ReadKidHead(s: seq<byte>): (p: Parse<(seq<byte>, OutPoint, OutPoint)>)
    ensures p.Ok? ==> |p.value.0| == 8
  {
    var (b, s1) :- ReadInto(Zeros(8), 8, s);
    var (op, s2) :- ReadOutpoint(s1);
    var (chan, s3) :- ReadOutpoint(s2);
    Ok((b, op, chan), s3)
  }

  lemma KidHead(amount: int, op: OutPoint, chan: OutPoint, tail: seq<byte>)
    requires IsInt64(amount) && ValidOutPoint(op) && ValidOutPoint(chan)
    ensures var f := BE(8, ToU64(amount));
            && ReadKidHead(f + (WriteOutpoint(op) + (WriteOutpoint(chan) + tail))) == Ok((f, op, chan), tail)
            && FromU64(FromBE(f)) == amount
  {
    Widths();
    var f := BE(8, ToU64(amount));
    ReadIntoExact(Zeros(8), f, WriteOutpoint(op) + (WriteOutpoint(chan) + tail));
    assert f + Zeros(8)[8..] == f;
    FromBEofBE(8, ToU64(amount));
    OutpointRoundTrip(op, WriteOutpoint(chan) + tail);
    OutpointRoundTrip(chan, tail);
  }

  function ReadKidTail(keys: KeyTest, scratch: seq<byte>, amount: int, op: OutPoint, chan: OutPoint,
                       s: seq<byte>): Parse<Kid>
    requires |scratch| == 8
  {
    var (isHtlc, s1) :- ReadBool(s);
    var (m, s2) :- ReadMaturity(scratch, s1);
    var (d, s3) :- ReadSignDesc(keys, s2);
    Ok(Kid(amount, op, chan, isHtlc, m.0, m.1, m.2, m.3, d), s3)
  }

  lemma KidTailRoundTrip(keys: KeyTest, scratch: seq<byte>, k: Kid, rest: seq<byte>)
    requires |scratch| == 8 && ValidKid(k)
    ensures ReadKidTail(keys, scratch, k.amount, k.op, k.chan, WriteKidTail(k) + rest) ==
            if WithinLimits(keys, k.signDesc) then Ok(k, rest) else Fail
  {
    var t2 := WriteSignDesc(k.signDesc);
    var t1 := WriteMaturity(k) + t2;
    Assoc(WriteBool(k.isHtlc), t1, rest);
    Assoc(WriteMaturity(k), t2, rest);
    ReadBoolExact(k.isHtlc, t1 + rest);
    MaturityRoundTrip(scratch, k, t2 + rest);
    SignDescRoundTrip(keys, k.signDesc, rest);
  }

  lemma MaturityRoundTrip(scratch: seq<byte>, k: Kid, rest: seq<byte>)
    requires |scratch| == 8 && ValidKid(k)
    ensures ReadMaturity(scratch, WriteMaturity(k) + rest) ==
            Ok((k.blocksToMaturity, k.absoluteMaturity, k.confHeight, k.witnessType), rest)
  {
    Widths();
    var f1, f2 := BE(4, k.blocksToMaturity), BE(4, k.absoluteMaturity);
    var f3, f4 := BE(4, k.confHeight), BE(2, k.witnessType);
    Assoc(f1, f2 + (f3 + f4), rest);
    Assoc(f2, f3 + f4, rest);
    Assoc(f3, f4, rest);
    ReadIntoExact(scratch, f1, (f2 + (f3 + f4)) + rest);
    var b1 := f1 + scratch[4..];
    ReadIntoExact(b1, f2, (f3 + f4) + rest);
    var b2 := f2 + b1[4..];
    ReadIntoExact(b2, f3, f4 + rest);
    var b3 := f3 + b2[4..];
    ReadIntoExact(b3, f4, rest);
    FromBEofBE(4, k.blocksToMaturity);
    FromBEofBE(4, k.absoluteMaturity);
    FromBEofBE(4, k.confHeight);
    FromBEofBE(2, k.witnessType);
  }

  lemma KidRoundTrip(keys: KeyTest, k: Kid, rest: seq<byte>)
    requires ValidKid(k)
    ensures ReadKid(keys, WriteKid(k) + rest) == if WithinLimits(keys, k.signDesc) then Ok(k, rest) else Fail
  {
    var f, tail := BE(8, ToU64(k.amount)), WriteKidTail(k);
    Assoc(f, WriteOutpoint(k.op) + (WriteOutpoint(k.chan) + tail), rest);
    Assoc(WriteOutpoint(k.op), WriteOutpoint(k.chan) + tail, rest);
    Assoc(WriteOutpoint(k.chan), tail, rest);
    KidHead(k.amount, k.op, k.chan, tail + rest);
    KidTailRoundTrip(keys, f, k, rest);
  }

  /**
    Eight bytes of amount, the outpoint, the channel, one byte that tells HTLCs, then delay, absolute
    maturity and confirmation height in four bytes each and the witness type in two, all big-endian,
    and the sign descriptor last.
  */
  lemma KidLayout(k: Kid)
    requires ValidKid(k)
    ensures var s := WriteKid(k);
            && |s| >= 97 && FromBE(s[..8]) == ToU64(k.amount)
            && s[8..45] == WriteOutpoint(k.op) && s[45..82] == WriteOutpoint(k.chan)
            && s[82] == (if k.isHtlc then 1 else 0)
            && FromBE(s[83..87]) == k.blocksToMaturity && FromBE(s[87..91]) == k.absoluteMaturity
            && FromBE(s[91..95]) == k.confHeight && FromBE(s[95..97]) == k.witnessType
            && s[97..] == WriteSignDesc(k.signDesc)
  {
    KidHeadLayout(k);
    KidTailLayout(k);
    var s := WriteKid(k);
    SliceAfter(s, 82, 1, 5);
    SliceAfter(s, 82, 5, 9);
    SliceAfter(s, 82, 9, 13);
    SliceAfter(s, 82, 13, 15);
  }

  lemma KidHeadLayout(k: Kid)
    requires ValidKid(k)
    ensures var s := WriteKid(k);
            && |s| >= 82 && FromBE(s[..8]) == ToU64(k.amount) && s[8..45] == WriteOutpoint(k.op)
            && s[45..82] == WriteOutpoint(k.chan) && s[82..] == WriteKidTail(k)
  {
    Widths();
    OutpointLayout(k.op);
    OutpointLayout(k.chan);
    FromBEofBE(8, ToU64(k.amount));
    FourParts(BE(8, ToU64(k.amount)), WriteOutpoint(k.op), WriteOutpoint(k.chan), WriteKidTail(k));
  }

  lemma KidTailLayout(k: Kid)
    requires ValidKid(k)
    ensures var t := WriteKidTail(k);
            && |t| >= 15 && t[0] == (if k.isHtlc then 1 else 0)
            && FromBE(t[1..5]) == k.blocksToMaturity && FromBE(t[5..9]) == k.absoluteMaturity
            && FromBE(t[9..13]) == k.confHeight && FromBE(t[13..15]) == k.witnessType
            && t[15..] == WriteSignDesc(k.signDesc)
  {
    Widths();
    var f1, f2 := BE(4, k.blocksToMaturity), BE(4, k.absoluteMaturity);
    var f3, f4 := BE(4, k.confHeight), BE(2, k.witnessType);
    FromBEofBE(4, k.blocksToMaturity);
    FromBEofBE(4, k.absoluteMaturity);
    FromBEofBE(4, k.confHeight);
    FromBEofBE(2, k.witnessType);
    var t := WriteKidTail(k);
    assert t == WriteBool(k.isHtlc) + (f1 + (f2 + (f3 + f4)) + WriteSignDesc(k.signDesc));
    assert t[1..5] == f1 && t[5..9] == f2 && t[9..13] == f3 && t[13..15] == f4;
  }

  /** A transaction codec; what is needed of btcd's is that it knows where a transaction ends. */
  datatype TxCodec = TxCodec(write: Tx -> seq<byte>, read: seq<byte> -> Parse<Tx>)

  ghost predicate SelfDelimiting(c: TxCodec) {
    forall tx, rest :: c.read(c.write(tx) + rest) == Ok(tx, rest)
  }

  function WriteBaby(c: TxCodec, b: Baby): seq<byte>
    requires ValidKid(b.kid) && IsU32(b.expiry)
  {
    BE(4, b.expiry) + (c.write(b.timeoutTx) + WriteKid(b.kid))
  }

  function ReadBaby(keys: KeyTest, c: TxCodec, s: seq<byte>): Parse<Baby> {
    var (e, s1) :- ReadInto(Zeros(4), 4, s);
    var (tx, s2) :- c.read(s1);
    var (kid, s3) :- ReadKid(keys, s2);
    Ok(Baby(FromBE(e), tx, kid), s3)
  }

  /** The expiry in four big-endian bytes, then the transaction, then the kid. */
  lemma BabyLayout(c: TxCodec, b: Baby)
    requires ValidKid(b.kid) && IsU32(b.expiry)
    ensures var s, n := WriteBaby(c, b), |c.write(b.timeoutTx)|;
            && |s| >= 4 + n && FromBE(s[..4]) == b.expiry && s[4..4 + n] == c.write(b.timeoutTx)
            && s[4 + n..] == WriteKid(b.kid)
  {
    Widths();
    FromBEofBE(4, b.expiry);
    assert WriteBaby(c, b)[..4] == BE(4, b.expiry);
  }

  lemma BabyRoundTrip(keys: KeyTest, c: TxCodec, b: Baby, rest: seq<byte>)
    requires SelfDelimiting(c) && ValidKid(b.kid) && IsU32(b.expiry)
    ensures ReadBaby(keys, c, WriteBaby(c, b) + rest) ==
            if WithinLimits(keys, b.kid.signDesc) then Ok(b, rest) else Fail
  {
    Widths();
    var t1 := c.write(b.timeoutTx) + WriteKid(b.kid);
    Assoc(BE(4, b.expiry), t1, rest);
    Assoc(c.write(b.timeoutTx), WriteKid(b.kid), rest);
    ReadIntoExact(Zeros(4), BE(4, b.expiry), t1 + rest);
    assert BE(4, b.expiry) + Zeros(4)[4..] == BE(4, b.expiry);
    FromBEofBE(4, b.expiry);
    KidRoundTrip(keys, b.kid, rest);
  }
}
