/**
  The nested buckets of the nursery store as values: the channel index, the height index, and
  the relation that says they hold exactly what a ledger holds.
*/
module NurseryBuckets {
  import opened Chain
  import opened NurseryLedger

  datatype Prefix = CribP | PsclP | KndrP | GradP

  /** A state prefix followed by an outpoint. */
  datatype Key = Key(prefix: Prefix, op: OutPoint)

  datatype Record = KidRecord(kid: Kid) | BabyRecord(baby: Baby)

  type ChanIndex = map<OutPoint, map<Key, Record>>

  datatype HeightBucket = HeightBucket(chans: map<OutPoint, set<Key>>, finalTx: Option<Tx>)

  type HeightIndex = map<nat, HeightBucket>

  datatype Db = Db(channels: ChanIndex, heights: HeightIndex, lastFinalized: nat, lastGraduated: nat)

  function Lookup(ci: ChanIndex, c: OutPoint, k: Key): Option<Record> {
    if c in ci && k in ci[c] then Some(ci[c][k]) else None
  }

  predicate HasEntry(hi: HeightIndex, h: nat, c: OutPoint, k: Key) {
    h in hi && c in hi[h].chans && k in hi[h].chans[c]
  }

  function TxAt(hi: HeightIndex, h: nat): Option<Tx> {
    if h in hi then hi[h].finalTx else None
  }

  predicate NoEmptyChannel(ci: ChanIndex) {
    forall c <- ci :: ci[c] != map[]
  }

  predicate FullBucket(b: HeightBucket) {
    b.chans != map[] && forall c <- b.chans :: b.chans[c] != {}
  }

  /** No empty height bucket and no empty height-channel bucket. */
  predicate NoEmptyHeight(hi: HeightIndex) {
    forall h <- hi :: FullBucket(hi[h])
  }

  /****** Bucket primitives ******/

  function PutOutput(ci: ChanIndex, c: OutPoint, k: Key, r: Record): (ci': ChanIndex)
    ensures (forall d <- ci | d != c :: ci[d] != map[]) ==> NoEmptyChannel(ci')
    ensures forall d, j :: Lookup(ci', d, j) == if d == c && j == k then Some(r) else Lookup(ci, d, j)
  {
    var bucket := if c in ci then ci[c] else map[];
    assert k in bucket[k := r];
    ci[c := bucket[k := r]]
  }

  function DeleteOutput(ci: ChanIndex, c: OutPoint, k: Key): (ci': ChanIndex)
    ensures NoEmptyChannel(ci) ==> forall d <- ci' | d != c :: ci'[d] != map[]
    ensures forall d, j :: Lookup(ci', d, j) == if d == c && j == k then None else Lookup(ci, d, j)
  {
    if c in ci then ci[c := ci[c] - {k}] else ci
  }

  function PutEntry(hi: HeightIndex, h: nat, c: OutPoint, k: Key): (hi': HeightIndex)
    ensures NoEmptyHeight(hi) ==> NoEmptyHeight(hi')
    ensures forall g: nat, d, j :: HasEntry(hi', g, d, j) <==> HasEntry(hi, g, d, j) || (g == h && d == c && j == k)
    ensures forall g: nat :: TxAt(hi', g) == TxAt(hi, g)
  {
    var b := if h in hi then hi[h] else HeightBucket(map[], None);
    var keys := (if c in b.chans then b.chans[c] else {}) + {k};
    assert k in keys && c in b.chans[c := keys];
    hi[h := b.(chans := b.chans[c := keys])]
  }

  /**
    Delete one entry and prune upwards: an emptied height-channel bucket goes, and then the
    height bucket, transaction included, when no other channel has an entry there.
  */
  function WithoutEntry(hi: HeightIndex, h: nat, c: OutPoint, k: Key): (hi': HeightIndex)
    requires NoEmptyHeight(hi)
    ensures NoEmptyHeight(hi')
    ensures forall g: nat, d, j :: HasEntry(hi', g, d, j) <==> HasEntry(hi, g, d, j) && !(g == h && d == c && j == k)
    ensures forall g: nat :: TxAt(hi', g) == if g in hi' then TxAt(hi, g) else None
    ensures forall g: nat | g != h :: g in hi' <==> g in hi
  {
    if !(h in hi && c in hi[h].chans) then hi
    else
      var keys := hi[h].chans[c] - {k};
      if keys != {} then hi[h := hi[h].(chans := hi[h].chans[c := keys])]
      else
        var chans := hi[h].chans - {c};
        assert forall d <- hi[h].chans :: d == c || d in chans;
        if chans == map[] then hi - {h} else hi[h := hi[h].(chans := chans)]
  }

  /****** What the buckets of a ledger hold ******/

  function PrefixOf(s: Stage): Prefix {
    match s
    case Crib(_) => CribP
    case Pscl(_) => PsclP
    case Kndr(_, _) => KndrP
    case Grad(_) => GradP
  }

  function RecordOf(s: Stage): Record {
    if s.Crib? then BabyRecord(s.baby) else KidRecord(KidOf(s))
  }

  predicate Holds(l: Ledger, c: OutPoint, k: Key) {
    Id(c, k.op) in l.stages && PrefixOf(l.stages[Id(c, k.op)]) == k.prefix
  }

  function Entry(l: Ledger, c: OutPoint, k: Key): Option<Record> {
    if Holds(l, c, k) then Some(RecordOf(l.stages[Id(c, k.op)])) else None
  }

  predicate Files(l: Ledger, h: nat, c: OutPoint, k: Key) {
    Holds(l, c, k) && ScheduledAt(l.stages[Id(c, k.op)]) == Some(h)
  }

  ghost predicate ChannelsAgree(ci: ChanIndex, l: Ledger) {
    && NoEmptyChannel(ci)
    && forall c, k :: Lookup(ci, c, k) == Entry(l, c, k)
  }

  ghost predicate HeightsAgree(hi: HeightIndex, l: Ledger) {
    && NoEmptyHeight(hi)
    && (forall h: nat, c, k :: HasEntry(hi, h, c, k) <==> Files(l, h, c, k))
    && (forall h: nat :: TxAt(hi, h) == if h in l.finalTxs then Some(l.finalTxs[h]) else None)
  }

  /** The two indexes agree with each other because both agree with one ledger. */
  ghost predicate Represents(db: Db, l: Ledger) {
    && ChannelsAgree(db.channels, l)
    && HeightsAgree(db.heights, l)
    && db.lastFinalized == l.lastFinalized
    && db.lastGraduated == l.lastGraduated
  }

  /****** The index invariants, read off without the ledger ******/

  predicate TimeLocked(p: Prefix) {
    p == CribP || p == KndrP
  }

  /**
    Each CRIB or KNDR output has exactly one height entry, a CRIB one at its expiry; PSCL and GRAD
    outputs have none; and an outpoint is stored under one prefix only.
  */
  lemma IndexesAgree(db: Db, l: Ledger, c: OutPoint, k: Key)
    requires Represents(db, l)
    ensures (exists h: nat :: HasEntry(db.heights, h, c, k)) <==>
            Lookup(db.channels, c, k).Some? && TimeLocked(k.prefix)
    ensures forall h1: nat, h2: nat :: HasEntry(db.heights, h1, c, k) && HasEntry(db.heights, h2, c, k) ==> h1 == h2
    ensures forall h: nat :: HasEntry(db.heights, h, c, k) && k.prefix == CribP ==>
              var r := Lookup(db.channels, c, k).value; r.BabyRecord? && r.baby.expiry == h
    ensures forall j :: Lookup(db.channels, c, k).Some? && Lookup(db.channels, c, j).Some? && j.op == k.op ==> j == k
  {
    if Lookup(db.channels, c, k).Some? && TimeLocked(k.prefix) {
      var h := ScheduledAt(l.stages[Id(c, k.op)]).value;
      assert Files(l, h, c, k);
      assert HasEntry(db.heights, h, c, k);
    }
  }

  /** A height bucket exists exactly when something is scheduled there. */
  lemma LiveHeights(hi: HeightIndex, l: Ledger, h: nat)
    requires HeightsAgree(hi, l)
    ensures h in hi <==> Scheduled(l, h) != {}
  {
    if h in hi {
      assert FullBucket(hi[h]);
      var c :| c in hi[h].chans;
      var k :| k in hi[h].chans[c];
      assert HasEntry(hi, h, c, k);
      assert Id(c, k.op) in Scheduled(l, h);
    }
    if Scheduled(l, h) != {} {
      var id :| id in Scheduled(l, h);
      var k := Key(PrefixOf(l.stages[id]), id.op);
      assert Files(l, h, id.chan, k);
      assert HasEntry(hi, h, id.chan, k);
    }
  }

  lemma KnownChannels(ci: ChanIndex, l: Ledger, c: OutPoint)
    requires ChannelsAgree(ci, l)
    ensures c in ci <==> ChannelIds(l, c) != {}
  {
    if c in ci {
      var k :| k in ci[c];
      assert Lookup(ci, c, k).Some?;
      assert Id(c, k.op) in ChannelIds(l, c);
    }
    if ChannelIds(l, c) != {} {
      var id :| id in ChannelIds(l, c);
      var k := Key(PrefixOf(l.stages[id]), id.op);
      assert Holds(l, c, k);
      assert Lookup(ci, c, k).Some?;
    }
  }

  /** One outpoint under two prefixes: no ledger describes such a database. */
  lemma TwoStatesUnrepresentable(db: Db, c: OutPoint, k1: Key, k2: Key)
    requires Lookup(db.channels, c, k1).Some? && Lookup(db.channels, c, k2).Some?
    requires k1 != k2 && k1.op == k2.op
    ensures !exists l :: Represents(db, l)
  {
    forall l
      ensures !Represents(db, l)
    {
      if Represents(db, l) {
        IndexesAgree(db, l, c, k1);
      }
    }
  }

  /** The channel index holds some outpoint under two prefixes. */
  ghost predicate TwoStates(ci: ChanIndex) {
    exists c, k1, k2 :: BothHeld(ci, c, k1, k2)
  }

  predicate BothHeld(ci: ChanIndex, c: OutPoint, k1: Key, k2: Key) {
    Lookup(ci, c, k1).Some? && Lookup(ci, c, k2).Some? && k1 != k2 && k1.op == k2.op
  }

  /** Writing more records does not heal it. */
  lemma TwoStatesStay(ci: ChanIndex, c: OutPoint, k: Key, r: Record)
    requires TwoStates(ci)
    ensures TwoStates(PutOutput(ci, c, k, r))
  {
    var d, k1, k2 :| BothHeld(ci, d, k1, k2);
    assert BothHeld(PutOutput(ci, c, k, r), d, k1, k2);
  }

  lemma TwoStatesMeaningless(db: Db)
    requires TwoStates(db.channels)
    ensures !exists l :: Represents(db, l)
  {
    var c, k1, k2 :| BothHeld(db.channels, c, k1, k2);
    TwoStatesUnrepresentable(db, c, k1, k2);
  }

  /** A height entry without a record, or one record at two heights, has no meaning either. */
  lemma DanglingUnrepresentable(db: Db, h: nat, c: OutPoint, k: Key)
    requires HasEntry(db.heights, h, c, k) && Lookup(db.channels, c, k).None?
    ensures !exists l :: Represents(db, l)
  {
    forall l
      ensures !Represents(db, l)
    {
      if Represents(db, l) {
        IndexesAgree(db, l, c, k);
      }
    }
  }

  lemma TwoHeightsUnrepresentable(db: Db, g: nat, h: nat, c: OutPoint, k: Key)
    requires HasEntry(db.heights, g, c, k) && HasEntry(db.heights, h, c, k) && g != h
    ensures !exists l :: Represents(db, l)
  {
    forall l
      ensures !Represents(db, l)
    {
      if Represents(db, l) {
        IndexesAgree(db, l, c, k);
      }
    }
  }

  /****** One output changes stage ******/

  lemma DeleteAbsent(ci: ChanIndex, c: OutPoint, k: Key)
    requires Lookup(ci, c, k).None?
    ensures DeleteOutput(ci, c, k) == ci
  {
    if c in ci {
      assert ci[c] - {k} == ci[c];
    }
  }

  lemma UnfileAbsent(hi: HeightIndex, h: nat, c: OutPoint, k: Key)
    requires NoEmptyHeight(hi) && !HasEntry(hi, h, c, k)
    ensures WithoutEntry(hi, h, c, k) == hi
  {
    if h in hi && c in hi[h].chans {
      assert FullBucket(hi[h]);
      assert hi[h].chans[c] - {k} == hi[h].chans[c];
      assert hi[h].chans[c := hi[h].chans[c]] == hi[h].chans;
    }
  }

  /** Writing a kindergarten record over itself. */
  lemma RewriteKeeps(db: Db, l: Ledger, kid: Kid, h: nat)
    requires Represents(db, l) && KndrAt(l, IdOf(kid), h)
    ensures var k := Key(KndrP, kid.op);
            Represents(db.(channels := PutOutput(db.channels, kid.chan, k, KidRecord(kid)),
                           heights := PutEntry(db.heights, h, kid.chan, k)),
                       l.(stages := l.stages[IdOf(kid) := Kndr(kid, h)]))
  {
    var k := Key(KndrP, kid.op);
    var ci, hi := PutOutput(db.channels, kid.chan, k, KidRecord(kid)), PutEntry(db.heights, h, kid.chan, k);
    var l' := l.(stages := l.stages[IdOf(kid) := Kndr(kid, h)]);
    forall c, j
      ensures Lookup(ci, c, j) == Entry(l', c, j)
    {
      assert Lookup(db.channels, c, j) == Entry(l, c, j);
    }
    forall g: nat, c, j
      ensures HasEntry(hi, g, c, j) <==> Files(l', g, c, j)
    {
      assert HasEntry(db.heights, g, c, j) <==> Files(l, g, c, j);
    }
  }

  function StageKey(id: Id, s: Stage): Key {
    Key(PrefixOf(s), id.op)
  }

  /** The channel index when `id` moves to stage `s`: delete the old key, write the new one. */
  function MoveOutput(ci: ChanIndex, id: Id, prev: Prefix, s: Stage): ChanIndex {
    PutOutput(DeleteOutput(ci, id.chan, Key(prev, id.op)), id.chan, StageKey(id, s), RecordOf(s))
  }

  lemma MoveKeepsChannels(ci: ChanIndex, l: Ledger, id: Id, s: Stage)
    requires ChannelsAgree(ci, l) && id in l.stages
    ensures ChannelsAgree(MoveOutput(ci, id, PrefixOf(l.stages[id]), s), l.(stages := l.stages[id := s]))
  {
    var l' := l.(stages := l.stages[id := s]);
    var ci1 := DeleteOutput(ci, id.chan, StageKey(id, l.stages[id]));
    var ci' := PutOutput(ci1, id.chan, StageKey(id, s), RecordOf(s));
    forall c, k
      ensures Lookup(ci', c, k) == Entry(l', c, k)
    {
      assert Lookup(ci, c, k) == Entry(l, c, k);
    }
  }

  lemma EnterKeepsChannels(ci: ChanIndex, l: Ledger, id: Id, s: Stage)
    requires ChannelsAgree(ci, l) && id !in l.stages
    ensures ChannelsAgree(PutOutput(ci, id.chan, StageKey(id, s), RecordOf(s)), l.(stages := l.stages[id := s]))
  {
    var l' := l.(stages := l.stages[id := s]);
    var ci' := PutOutput(ci, id.chan, StageKey(id, s), RecordOf(s));
    forall c, k
      ensures Lookup(ci', c, k) == Entry(l', c, k)
    {
      assert Lookup(ci, c, k) == Entry(l, c, k);
    }
  }

  /** Filing an output that was in no height bucket. */
  lemma FileKeepsHeights(hi: HeightIndex, l: Ledger, id: Id, s: Stage)
    requires HeightsAgree(hi, l)
    requires id in l.stages ==> ScheduledAt(l.stages[id]).None?
    requires ScheduledAt(s).Some?
    ensures HeightsAgree(PutEntry(hi, ScheduledAt(s).value, id.chan, StageKey(id, s)), l.(stages := l.stages[id := s]))
  {
    var l' := l.(stages := l.stages[id := s]);
    var hi' := PutEntry(hi, ScheduledAt(s).value, id.chan, StageKey(id, s));
    forall h: nat, c, k
      ensures HasEntry(hi', h, c, k) <==> Files(l', h, c, k)
    {
      assert HasEntry(hi, h, c, k) <==> Files(l, h, c, k);
    }
  }

  /**
    Unfiling an output. Pruning may take the height's transaction along, but never one that
    still has a class: that height keeps another entry.
  */
  lemma UnfileKeepsHeights(hi: HeightIndex, l: Ledger, id: Id, s: Stage)
    requires HeightsAgree(hi, l)
    requires id in l.stages && ScheduledAt(l.stages[id]).Some? && ScheduledAt(s).None?
    requires var h := ScheduledAt(l.stages[id]).value; h in l.finalTxs ==> Class(l, h) - {id} != {}
    ensures HeightsAgree(WithoutEntry(hi, ScheduledAt(l.stages[id]).value, id.chan, StageKey(id, l.stages[id])),
                         l.(stages := l.stages[id := s]))
  {
    var l' := l.(stages := l.stages[id := s]);
    var h0 := ScheduledAt(l.stages[id]).value;
    var hi' := WithoutEntry(hi, h0, id.chan, StageKey(id, l.stages[id]));
    forall h: nat, c, k
      ensures HasEntry(hi', h, c, k) <==> Files(l', h, c, k)
    {
      assert HasEntry(hi, h, c, k) <==> Files(l, h, c, k);
    }
    if h0 in l.finalTxs {
      var other :| other in Class(l, h0) - {id};
      var k := Key(KndrP, other.op);
      assert Files(l', h0, other.chan, k);
      assert HasEntry(hi', h0, other.chan, k);
    }
  }
}
