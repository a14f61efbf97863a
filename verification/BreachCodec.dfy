/** Byte format of retribution records, for any number of breached outputs. */
module BreachCodec {
  import opened Chain
  import opened Breach
  import opened Codec

  predicate ValidOutput(o: BreachedOutput) {
    && IsInt64(o.amount) && ValidOutPoint(o.op) && ValidSignDesc(o.signDesc) && IsU16(o.witnessType)
    && |o.secondLevelScript| < 0x1_0000_0000
  }

  /** The limits that the reader enforces. */
  predicate Readable(keys: KeyTest, o: BreachedOutput) {
    WithinLimits(keys, o.signDesc) && |o.secondLevelScript| <= 1000
  }

  function WriteOutputTail(o: BreachedOutput): seq<byte>
    requires ValidOutput(o)
  {
    WriteSignDesc(o.signDesc) + (WriteVarBytes(o.secondLevelScript) + BE(2, o.witnessType))
  }

  function WriteOutput(o: BreachedOutput): seq<byte>
    requires ValidOutput(o)
  {
    BE(8, ToU64(o.amount)) + (WriteOutpoint(o.op) + WriteOutputTail(o))
  }

  function ReadOutput(keys: KeyTest, s: seq<byte>): Parse<BreachedOutput> {
    var (head, s1) :- ReadOutputHead(s);
    ReadOutputTail(keys, head.0, head.1, s1)
  }

  function ReadOutputHead(s: seq<byte>): Parse<(int, OutPoint)> {
    var (v, s1) :- ReadBE(8, s);
    var (op, s2) :- ReadOutpoint(s1);
    Ok((FromU64(v), op), s2)
  }

  function ReadOutputTail(keys: KeyTest, amount: int, op: OutPoint, s: seq<byte>): Parse<BreachedOutput> {
    var (d, s1) :- ReadSignDesc(keys, s);
    var (script, s2) :- ReadVarBytes(1000, s1);
    var (w, s3) :- ReadBE(2, s2);
    Ok(BreachedOutput(amount, op, w, d, script), s3)
  }

  lemma OutputTailRoundTrip(keys: KeyTest, o: BreachedOutput, rest: seq<byte>)
    requires ValidOutput(o)
    ensures ReadOutputTail(keys, o.amount, o.op, WriteOutputTail(o) + rest) ==
            if Readable(keys, o) then Ok(o, rest) else Fail
  {
    Widths();
    var t2 := BE(2, o.witnessType);
    var t1 := WriteVarBytes(o.secondLevelScript) + t2;
    Assoc(WriteSignDesc(o.signDesc), t1, rest);
    Assoc(WriteVarBytes(o.secondLevelScript), t2, rest);
    SignDescRoundTrip(keys, o.signDesc, t1 + rest);
    VarBytesRoundTrip(o.secondLevelScript, 1000, t2 + rest);
    ReadBEExact(2, o.witnessType, rest);
  }

  lemma OutputHead(amount: int, op: OutPoint, tail: seq<byte>)
    requires IsInt64(amount) && ValidOutPoint(op)
    ensures ReadOutputHead(BE(8, ToU64(amount)) + (WriteOutpoint(op) + tail)) == Ok((amount, op), tail)
  {
    Widths();
    ReadBEExact(8, ToU64(amount), WriteOutpoint(op) + tail);
    OutpointRoundTrip(op, tail);
  }

  lemma OutputRoundTrip(keys: KeyTest, o: BreachedOutput, rest: seq<byte>)
    requires ValidOutput(o)
    ensures ReadOutput(keys, WriteOutput(o) + rest) == if Readable(keys, o) then Ok(o, rest) else Fail
  {
    var head, op, tail := BE(8, ToU64(o.amount)), WriteOutpoint(o.op), WriteOutputTail(o);
    Assoc(head, op + tail, rest);
    Assoc(op, tail, rest);
    OutputHead(o.amount, o.op, tail + rest);
    OutputTailRoundTrip(keys, o, rest);
  }

  /** Eight bytes of amount, the outpoint, the sign descriptor, the second-level script, and two bytes of type. */
  lemma OutputLayout(o: BreachedOutput)
    requires ValidOutput(o)
    ensures var s := WriteOutput(o);
            && |s| >= 45 && FromBE(s[..8]) == ToU64(o.amount) && s[8..45] == WriteOutpoint(o.op)
            && s[45..] == WriteSignDesc(o.signDesc) + (WriteVarBytes(o.secondLevelScript) + BE(2, o.witnessType))
  {
    Widths();
    OutpointLayout(o.op);
    FromBEofBE(8, ToU64(o.amount));
    Parts(BE(8, ToU64(o.amount)), WriteOutpoint(o.op), WriteOutputTail(o));
  }

  predicate AllValid(outputs: seq<BreachedOutput>) {
    forall i | 0 <= i < |outputs| :: ValidOutput(outputs[i])
  }

  predicate AllReadable(keys: KeyTest, outputs: seq<BreachedOutput>) {
    forall i | 0 <= i < |outputs| :: Readable(keys, outputs[i])
  }

  function Concat(chunks: seq<seq<byte>>): seq<byte> {
    if chunks == [] then [] else chunks[0] + Concat(chunks[1..])
  }

  function ReadList<T>(read: seq<byte> -> Parse<T>, n: nat, s: seq<byte>): Parse<seq<T>> {
    if n == 0 then Ok([], s)
    else
      var (x, s1) :- read(s);
      var (xs, s2) :- ReadList(read, n - 1, s1);
      Ok([x] + xs, s2)
  }

  /** The reader gives x back from these bytes, whatever follows, or refuses them. */
  ghost predicate ReadsBack<T(!new)>(read: seq<byte> -> Parse<T>, x: T, good: bool, chunk: seq<byte>) {
    forall tail :: read(chunk + tail) == if good then Ok(x, tail) else Fail
  }

  ghost predicate ListReadsBack<T(!new)>(read: seq<byte> -> Parse<T>, xs: seq<T>, good: seq<bool>,
                                         chunks: seq<seq<byte>>) {
    && |xs| == |good| == |chunks|
    && forall i | 0 <= i < |xs| :: ReadsBack(read, xs[i], good[i], chunks[i])
  }

  predicate AllTrue(good: seq<bool>) {
    forall i | 0 <= i < |good| :: good[i]
  }

  lemma AllTrueCons(good: seq<bool>)
    requires good != []
    ensures AllTrue(good) == (good[0] && AllTrue(good[1..]))
  {
    assert good == [good[0]] + good[1..];
  }

  lemma {:induction false} ListRoundTrip<T(!new)>(read: seq<byte> -> Parse<T>, xs: seq<T>, good: seq<bool>,
                                                  chunks: seq<seq<byte>>, rest: seq<byte>)
    requires ListReadsBack(read, xs, good, chunks)
    ensures ReadList(read, |xs|, Concat(chunks) + rest) == if AllTrue(good) then Ok(xs, rest) else Fail
    decreases |xs|
  {
    if xs == [] {
      assert [] + rest == rest;
    } else {
      var tail := Concat(chunks[1..]) + rest;
      Assoc(chunks[0], Concat(chunks[1..]), rest);
      assert ReadsBack(read, xs[0], good[0], chunks[0]);
      assert read(chunks[0] + tail) == if good[0] then Ok(xs[0], tail) else Fail;
      ListRoundTrip(read, xs[1..], good[1..], chunks[1..], rest);
      AllTrueCons(good);
      assert [xs[0]] + xs[1..] == xs;
    }
  }

  function Written(outputs: seq<BreachedOutput>): seq<seq<byte>>
    requires AllValid(outputs)
  {
    seq(|outputs|, i requires 0 <= i < |outputs| => WriteOutput(outputs[i]))
  }

  function WriteOutputs(outputs: seq<BreachedOutput>): seq<byte>
    requires AllValid(outputs)
  {
    Concat(Written(outputs))
  }

  function ReadOutputs(keys: KeyTest, n: nat, s: seq<byte>): Parse<seq<BreachedOutput>> {
    ReadList(t => ReadOutput(keys, t), n, s)
  }

  lemma OutputReadsBack(keys: KeyTest, o: BreachedOutput, read: seq<byte> -> Parse<BreachedOutput>)
    requires ValidOutput(o) && forall t :: read(t) == ReadOutput(keys, t)
    ensures ReadsBack(read, o, Readable(keys, o), WriteOutput(o))
  {
    forall tail
      ensures read(WriteOutput(o) + tail) == if Readable(keys, o) then Ok(o, tail) else Fail
    {
      OutputRoundTrip(keys, o, tail);
    }
  }

  function Verdicts(keys: KeyTest, outputs: seq<BreachedOutput>): seq<bool> {
    seq(|outputs|, i requires 0 <= i < |outputs| => Readable(keys, outputs[i]))
  }

  lemma VerdictsAreReadable(keys: KeyTest, outputs: seq<BreachedOutput>)
    ensures AllTrue(Verdicts(keys, outputs)) == AllReadable(keys, outputs)
  {
    assert forall i | 0 <= i < |outputs| :: Verdicts(keys, outputs)[i] == Readable(keys, outputs[i]);
  }

  lemma OutputsReadBack(keys: KeyTest, outputs: seq<BreachedOutput>, read: seq<byte> -> Parse<BreachedOutput>)
    requires AllValid(outputs) && forall t :: read(t) == ReadOutput(keys, t)
    ensures ListReadsBack(read, outputs, Verdicts(keys, outputs), Written(outputs))
  {
    forall i | 0 <= i < |outputs|
      ensures ReadsBack(read, outputs[i], Verdicts(keys, outputs)[i], Written(outputs)[i])
    {
      OutputReadsBack(keys, outputs[i], read);
    }
  }

  lemma OutputsRoundTrip(keys: KeyTest, outputs: seq<BreachedOutput>, rest: seq<byte>)
    requires AllValid(outputs)
    ensures ReadOutputs(keys, |outputs|, WriteOutputs(outputs) + rest) ==
            if AllReadable(keys, outputs) then Ok(outputs, rest) else Fail
  {
    var read := t => ReadOutput(keys, t);
    OutputsReadBack(keys, outputs, read);
    ListRoundTrip(read, outputs, Verdicts(keys, outputs), Written(outputs), rest);
    VerdictsAreReadable(keys, outputs);
  }

  predicate ValidInfo(ret: RetributionInfo) {
    && |ret.commitHash| == 32 && |ret.chainHash| == 32 && ValidOutPoint(ret.chan) && IsU32(ret.breachHeight)
    && |ret.outputs| < 0x1_0000_0000_0000_0000 && AllValid(ret.outputs)
  }

  function WriteInfoTail(ret: RetributionInfo): seq<byte>
    requires ValidInfo(ret)
  {
    BE(4, ret.breachHeight) + (WriteVarInt(|ret.outputs|) + WriteOutputs(ret.outputs))
  }

  function WriteInfo(ret: RetributionInfo): seq<byte>
    requires ValidInfo(ret)
  {
    ret.commitHash + (WriteOutpoint(ret.chan) + (ret.chainHash + WriteInfoTail(ret)))
  }

  function ReadInfoTail(keys: KeyTest, commitHash: seq<byte>, chan: OutPoint, chainHash: seq<byte>,
                        s: seq<byte>): Parse<RetributionInfo> {
    var (h, s1) :- ReadBE(4, s);
    var (n, s2) :- ReadVarInt(s1);
    var (outputs, s3) :- ReadOutputs(keys, n, s2);
    Ok(RetributionInfo(commitHash, chan, chainHash, h, outputs), s3)
  }

  function ReadInfo(keys: KeyTest, s: seq<byte>): Parse<RetributionInfo> {
    var (commitHash, s1) :- ReadFull(32, s);
    var (chan, s2) :- ReadOutpoint(s1);
    var (chainHash, s3) :- ReadFull(32, s2);
    ReadInfoTail(keys, commitHash, chan, chainHash, s3)
  }

  lemma InfoTailRoundTrip(keys: KeyTest, ret: RetributionInfo, rest: seq<byte>)
    requires ValidInfo(ret)
    ensures ReadInfoTail(keys, ret.commitHash, ret.chan, ret.chainHash, WriteInfoTail(ret) + rest) ==
            if AllReadable(keys, ret.outputs) then Ok(ret, rest) else Fail
  {
    Widths();
    var t2 := WriteOutputs(ret.outputs);
    var t1 := WriteVarInt(|ret.outputs|) + t2;
    Assoc(BE(4, ret.breachHeight), t1, rest);
    Assoc(WriteVarInt(|ret.outputs|), t2, rest);
    ReadBEExact(4, ret.breachHeight, t1 + rest);
    VarIntRoundTrip(|ret.outputs|, t2 + rest);
    OutputsRoundTrip(keys, ret.outputs, rest);
  }

  /** Commitment hash, channel, chain hash, height in four big-endian bytes, the number of outputs, the outputs. */
  lemma InfoLayout(ret: RetributionInfo)
    requires ValidInfo(ret)
    ensures var s := WriteInfo(ret);
            && |s| >= 105 && s[..32] == ret.commitHash && s[32..69] == WriteOutpoint(ret.chan)
            && s[69..101] == ret.chainHash && FromBE(s[101..105]) == ret.breachHeight
            && s[105..] == WriteVarInt(|ret.outputs|) + WriteOutputs(ret.outputs)
  {
    Widths();
    OutpointLayout(ret.chan);
    FromBEofBE(4, ret.breachHeight);
    var s, t := WriteInfo(ret), WriteInfoTail(ret);
    var rest := ret.chainHash + t;
    Parts(ret.commitHash, WriteOutpoint(ret.chan), rest);
    Parts(ret.chainHash, BE(4, ret.breachHeight), WriteVarInt(|ret.outputs|) + WriteOutputs(ret.outputs));
    SliceAfter(s, 69, 0, 32);
    SliceAfter(s, 69, 32, 36);
  }

  /** A record with any number of outputs comes back exactly when each of them is within the reader's limits. */
  lemma InfoRoundTrip(keys: KeyTest, ret: RetributionInfo, rest: seq<byte>)
    requires ValidInfo(ret)
    ensures ReadInfo(keys, WriteInfo(ret) + rest) == if AllReadable(keys, ret.outputs) then Ok(ret, rest) else Fail
  {
    var t3 := WriteInfoTail(ret);
    var t2 := ret.chainHash + t3;
    var t1 := WriteOutpoint(ret.chan) + t2;
    Assoc(ret.commitHash, t1, rest);
    Assoc(WriteOutpoint(ret.chan), t2, rest);
    Assoc(ret.chainHash, t3, rest);
    ReadFullExact(ret.commitHash, t1 + rest);
    OutpointRoundTrip(ret.chan, t2 + rest);
    ReadFullExact(ret.chainHash, t3 + rest);
    InfoTailRoundTrip(keys, ret, rest);
  }
}
