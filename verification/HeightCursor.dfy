/** The walk over the height index, whose keys the database keeps in byte order. */
module HeightCursor {
  import opened Chain
  import opened NurseryLedger
  import opened NurseryBuckets
  import opened Codec

  /** `keys` are the four-byte keys of a height index as a cursor meets them. */
  ghost predicate CursorOver(keys: seq<seq<byte>>, hi: HeightIndex) {
    && (forall i | 0 <= i < |keys| :: |keys[i]| == 4 && FromBE(keys[i]) in hi)
    && (forall i, j | 0 <= i < j < |keys| :: LexLess(keys[i], keys[j]))
    && (forall h <- hi :: exists i :: 0 <= i < |keys| && FromBE(keys[i]) == h)
  }

  ghost predicate Ascending(hs: seq<nat>) {
    forall i, j | 0 <= i < j < |hs| :: hs[i] < hs[j]
  }

  /** The heights with live outputs at or below a bound, in ascending order, and no others. */
  method HeightsBelowOrEqual(keys: seq<seq<byte>>, bound: nat, ghost hi: HeightIndex, ghost l: Ledger)
    returns (hs: seq<nat>)
    requires IsU32(bound) && CursorOver(keys, hi) && HeightsAgree(hi, l)
    ensures Ascending(hs)
    ensures forall h: nat :: h in hs <==> h <= bound && Scheduled(l, h) != {}
  {
    var upper := BE(4, bound);
    hs := [];
    var i := 0;
    while i < |keys| && !LexLess(upper, keys[i])
      invariant 0 <= i <= |keys| && |hs| == i
      invariant forall j | 0 <= j < i :: !LexLess(upper, keys[j]) && hs[j] == FromBE(keys[j])
    {
      hs := hs + [FromBE(keys[i])];
      i := i + 1;
    }
    CutAt(keys, upper, i);
    KeysAscend(keys, bound, i);
    AllCollected(keys, bound, hi, l, hs);
  }

  lemma AllCollected(keys: seq<seq<byte>>, bound: nat, hi: HeightIndex, l: Ledger, hs: seq<nat>)
    requires HeightsAgree(hi, l)
    requires CursorOver(keys, hi) && |hs| <= |keys| && forall j | 0 <= j < |hs| :: hs[j] == FromBE(keys[j])
    requires forall j | 0 <= j < |keys| :: FromBE(keys[j]) <= bound <==> j < |hs|
    ensures forall h: nat :: h in hs <==> h <= bound && Scheduled(l, h) != {}
  {
    forall h: nat
      ensures h in hs <==> h <= bound && Scheduled(l, h) != {}
    {
      LiveHeights(hi, l, h);
      Collected(keys, bound, hi, hs, h);
    }
  }

  /** Reading off the keys at or below the bound collects exactly the heights there. */
  lemma Collected(keys: seq<seq<byte>>, bound: nat, hi: HeightIndex, hs: seq<nat>, h: nat)
    requires CursorOver(keys, hi) && |hs| <= |keys| && forall j | 0 <= j < |hs| :: hs[j] == FromBE(keys[j])
    requires forall j | 0 <= j < |keys| :: FromBE(keys[j]) <= bound <==> j < |hs|
    ensures h in hs <==> h <= bound && h in hi
  {
    if h in hs {
      var j :| 0 <= j < |hs| && hs[j] == h;
      assert FromBE(keys[j]) in hi;
    }
    if h in hi && h <= bound {
      var j :| 0 <= j < |keys| && FromBE(keys[j]) == h;
      assert hs[j] == h;
    }
  }

  lemma LexLessTransitive(s: seq<byte>, t: seq<byte>, u: seq<byte>)
    requires |s| == |t| == |u| && LexLess(s, t) && LexLess(t, u)
    ensures LexLess(s, u)
  {
    ByteOrderIsNumeric(s, t);
    ByteOrderIsNumeric(t, u);
    ByteOrderIsNumeric(s, u);
  }

  /** Past the first key above the bound every key is above it. */
  lemma CutAt(keys: seq<seq<byte>>, upper: seq<byte>, i: nat)
    requires |upper| == 4 && i <= |keys| && forall j | 0 <= j < |keys| :: |keys[j]| == 4
    requires forall j, k | 0 <= j < k < |keys| :: LexLess(keys[j], keys[k])
    requires i < |keys| ==> LexLess(upper, keys[i])
    ensures forall j | i <= j < |keys| :: LexLess(upper, keys[j])
  {
    forall j | i < j < |keys|
      ensures LexLess(upper, keys[j])
    {
      LexLessTransitive(upper, keys[i], keys[j]);
    }
  }

  /** Byte order read as numbers. */
  lemma KeysAscend(keys: seq<seq<byte>>, bound: nat, i: nat)
    requires IsU32(bound) && i <= |keys| && forall j | 0 <= j < |keys| :: |keys[j]| == 4
    requires forall j, k | 0 <= j < k < |keys| :: LexLess(keys[j], keys[k])
    requires forall j | 0 <= j < |keys| :: LexLess(BE(4, bound), keys[j]) <==> i <= j
    ensures forall j, k | 0 <= j < k < |keys| :: FromBE(keys[j]) < FromBE(keys[k])
    ensures forall j | 0 <= j < |keys| :: FromBE(keys[j]) <= bound <==> j < i
  {
    Widths();
    FromBEofBE(4, bound);
    forall j, k | 0 <= j < k < |keys|
      ensures FromBE(keys[j]) < FromBE(keys[k])
    {
      ByteOrderIsNumeric(keys[j], keys[k]);
    }
    forall j | 0 <= j < |keys|
      ensures FromBE(keys[j]) <= bound <==> j < i
    {
      ByteOrderIsNumeric(BE(4, bound), keys[j]);
    }
  }
}
