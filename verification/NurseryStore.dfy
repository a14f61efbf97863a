/**
  The nursery store as an object over nested buckets. Each public method is one database
  transaction; its ghost ledger shows that the buckets always hold what a ledger holds.
*/
module NurseryStore {
  import opened Chain
  import opened NurseryLedger
  import opened NurseryBuckets

  datatype StoreError = ContractNotFound | ImmatureChannel | MissingChannel | MissingOutput | BadRecord

  /** One record found through the height index. */
  datatype Item = Item(chan: OutPoint, key: Key, record: Record)

  /** `items` are the outputs with the prefix at the height, once each. */
  ghost predicate ListsItems(items: seq<Item>, db: Db, h: nat, p: Prefix, chans: set<OutPoint>) {
    && (forall i | 0 <= i < |items| ::
          && items[i].chan in chans && items[i].key.prefix == p
          && HasEntry(db.heights, h, items[i].chan, items[i].key)
          && Lookup(db.channels, items[i].chan, items[i].key) == Some(items[i].record))
    && (forall c, k | c in chans && HasEntry(db.heights, h, c, k) && k.prefix == p ::
          exists i :: 0 <= i < |items| && items[i].chan == c && items[i].key == k)
    && (forall i, j | 0 <= i < j < |items| :: items[i].chan != items[j].chan || items[i].key != items[j].key)
  }

  /** `kids` is the kindergarten class of a height, once each, in some order. */
  ghost predicate ListsClass(l: Ledger, h: nat, kids: seq<Kid>) {
    && (forall i | 0 <= i < |kids| :: KndrAt(l, IdOf(kids[i]), h) && l.stages[IdOf(kids[i])].kid == kids[i])
    && (forall id | KndrAt(l, id, h) :: exists i :: 0 <= i < |kids| && IdOf(kids[i]) == id)
    && (forall i, j | 0 <= i < j < |kids| :: IdOf(kids[i]) != IdOf(kids[j]))
  }

  /** `babies` are the crib outputs that expire at a height, once each. */
  ghost predicate ListsCribs(l: Ledger, h: nat, babies: seq<Baby>) {
    && (forall i | 0 <= i < |babies| ::
          && IdOf(babies[i].kid) in l.stages && l.stages[IdOf(babies[i].kid)] == Crib(babies[i])
          && babies[i].expiry == h)
    && (forall id <- l.stages | l.stages[id].Crib? && l.stages[id].baby.expiry == h ::
          exists i :: 0 <= i < |babies| && IdOf(babies[i].kid) == id)
    && (forall i, j | 0 <= i < j < |babies| :: IdOf(babies[i].kid) != IdOf(babies[j].kid))
  }

  class Store {
    var channels: ChanIndex
    var heights: HeightIndex
    var lastFinalized: nat
    var lastGraduated: nat
    var indexed: bool          // the channel index bucket has been created
    ghost var ledger: Ledger

    function Snapshot(): Db
      reads this
    {
      Db(channels, heights, lastFinalized, lastGraduated)
    }

    ghost predicate Valid()
      reads this
    {
      Represents(Snapshot(), ledger) && Coherent(ledger) && (!indexed ==> channels == map[])
    }

    constructor ()
      ensures Valid()
      ensures ledger == Ledger(map[], map[], 0, 0)
    {
      channels, heights, lastFinalized, lastGraduated, indexed := map[], map[], 0, 0, false;
      ledger := Ledger(map[], map[], 0, 0);
    }

    /****** Height index ******/

    /** Delete an entry, then prune its height-channel bucket and its height bucket if they are empty. */
    method RemoveOutputFromHeight(h: nat, c: OutPoint, k: Key)
      requires NoEmptyHeight(heights)
      modifies `heights
      ensures heights == WithoutEntry(old(heights), h, c, k)
    {
      if h !in heights || c !in heights[h].chans {
        return;
      }
      var keys := heights[h].chans[c] - {k};
      if keys != {} {
        heights := heights[h := heights[h].(chans := heights[h].chans[c := keys])];
        return;
      }
      heights := heights[h := heights[h].(chans := heights[h].chans - {c})];
      var _ := PruneHeight(h);
      assert old(heights)[h := old(heights)[h].(chans := old(heights)[h].chans - {c})] - {h} == old(heights) - {h};
    }

    /** Remove a height bucket if and only if every height-channel bucket in it is empty. */
    method PruneHeight(h: nat) returns (pruned: bool)
      modifies `heights
      ensures pruned <==> h in old(heights) && forall c <- old(heights)[h].chans :: old(heights)[h].chans[c] == {}
      ensures heights == if pruned then old(heights) - {h} else old(heights)
    {
      if h !in heights {
        return false;
      }
      var todo := heights[h].chans.Keys;
      while todo != {}
        invariant todo <= heights[h].chans.Keys
        invariant forall c <- heights[h].chans :: c in todo || heights[h].chans[c] == {}
      {
        var c :| c in todo;
        if heights[h].chans[c] != {} {
          return false;
        }
        todo := todo - {c};
      }
      heights := heights - {h};
      pruned := true;
    }

    /** Collect, for every channel at a height, the outputs whose key carries the prefix. */
    method ForEachHeightPrefix(p: Prefix, h: nat) returns (err: Option<StoreError>, items: seq<Item>)
      ensures err.None? ==> ListsItems(items, Snapshot(), h, p, ChansAt(heights, h))
      ensures err == Some(MissingChannel) ==> h in heights && exists c <- heights[h].chans :: c !in channels
      ensures err == Some(MissingOutput) ==>
                exists c, k :: HasEntry(heights, h, c, k) && k.prefix == p && Lookup(channels, c, k).None?
      ensures err.Some? ==> err.value in {MissingChannel, MissingOutput}
    {
      err, items := None, [];
      if h !in heights {
        return;
      }
      var todo, done: set<OutPoint> := heights[h].chans.Keys, {};
      while todo != {}
        invariant err.None?
        invariant todo + done == heights[h].chans.Keys && todo !! done
        invariant ListsItems(items, Snapshot(), h, p, done)
      {
        var c :| c in todo;
        if c !in channels {
          return Some(MissingChannel), items;
        }
        var more: seq<Item>;
        err, more := ScanChannel(p, h, c);
        if err.Some? {
          return;
        }
        ghost var before := items;
        items := items + more;
        todo, done := todo - {c}, done + {c};
        ListsConcat(before, more, Snapshot(), h, p, done - {c}, {c});
      }
    }

    /** The prefix scan of one height-channel bucket. */
    method ScanChannel(p: Prefix, h: nat, c: OutPoint) returns (err: Option<StoreError>, items: seq<Item>)
      requires h in heights && c in heights[h].chans && c in channels
      ensures err.None? ==> ListsItems(items, Snapshot(), h, p, {c})
      ensures err.Some? ==> err == Some(MissingOutput)
                            && exists k :: HasEntry(heights, h, c, k) && k.prefix == p && Lookup(channels, c, k).None?
    {
      err, items := None, [];
      var keys := heights[h].chans[c];
      while keys != {}
        invariant keys <= heights[h].chans[c]
        invariant forall i | 0 <= i < |items| ::
                    && items[i].chan == c && items[i].key.prefix == p && items[i].key !in keys
                    && HasEntry(heights, h, c, items[i].key)
                    && Lookup(channels, c, items[i].key) == Some(items[i].record)
        invariant forall k <- heights[h].chans[c] | k.prefix == p && k !in keys ::
                    exists i :: 0 <= i < |items| && items[i].key == k
        invariant forall i, j | 0 <= i < j < |items| :: items[i].key != items[j].key
      {
        var k :| k in keys;
        keys := keys - {k};
        if k.prefix == p {
          if k !in channels[c] {
            assert HasEntry(heights, h, c, k);
            return Some(MissingOutput), items;
          }
          ghost var before := items;
          items := items + [Item(c, k, channels[c][k])];
          assert items[|before|].key == k;
          assert forall i | 0 <= i < |before| :: items[i] == before[i];
        }
      }
    }

    /****** Transactions ******/

    /**
      File a new preschool output. The duplicate check looks only at the preschool key, so the
      store stays a ledger exactly when the outpoint is new or still in preschool.
    */
    method EnterPreschool(kid: Kid)
      modifies `channels, `indexed, `ledger
      ensures old(Valid()) && MayEnterPreschool(old(ledger), kid) ==>
                Valid() && ledger == NurseryLedger.EnterPreschool(old(ledger), kid)
      ensures old(Valid()) && !MayEnterPreschool(old(ledger), kid) ==> TwoStates(channels)
      ensures old(TwoStates(channels)) ==> TwoStates(channels)
    {
      indexed := true;
      var key := Key(PsclP, kid.op);
      if kid.chan in channels && key in channels[kid.chan] {
        assert Lookup(channels, kid.chan, key).Some?;
        return;
      }
      if TwoStates(channels) {
        TwoStatesStay(channels, kid.chan, key, KidRecord(kid));
      }
      channels := PutOutput(channels, kid.chan, key, KidRecord(kid));
      if old(Valid()) {
        PreschoolEntered(old(Snapshot()), old(ledger), kid);
      }
      ledger := NurseryLedger.EnterPreschool(ledger, kid);
    }

    method EnterCrib(baby: Baby)
      modifies `channels, `heights, `indexed, `ledger
      ensures old(Valid()) && MayEnterCrib(old(ledger), baby) ==>
                Valid() && ledger == NurseryLedger.EnterCrib(old(ledger), baby)
      ensures old(Valid()) && !MayEnterCrib(old(ledger), baby) ==> TwoStates(channels)
      ensures old(TwoStates(channels)) ==> TwoStates(channels)
    {
      indexed := true;
      var kid := baby.kid;
      var key := Key(CribP, kid.op);
      if kid.chan in channels && key in channels[kid.chan] {
        assert Lookup(channels, kid.chan, key).Some?;
        return;
      }
      if TwoStates(channels) {
        TwoStatesStay(channels, kid.chan, key, BabyRecord(baby));
      }
      heights := PutEntry(heights, baby.expiry, kid.chan, key);
      channels := PutOutput(channels, kid.chan, key, BabyRecord(baby));
      if old(Valid()) {
        CribEntered(old(Snapshot()), old(ledger), baby);
      }
      ledger := NurseryLedger.EnterCrib(ledger, baby);
    }

    /** A batch goes in as a whole; the store stays a ledger exactly when each output may enter at its turn. */
    method Incubate(kids: seq<Kid>, babies: seq<Baby>)
      requires Valid()
      modifies `channels, `heights, `indexed, `ledger
      ensures MayIncubate(old(ledger), kids, babies) ==>
                Valid() && ledger == NurseryLedger.Incubate(old(ledger), kids, babies)
      ensures !MayIncubate(old(ledger), kids, babies) ==> !exists l :: Represents(Snapshot(), l)
    {
      EnterKids(kids);
      EnterBabies(babies);
      if !MayIncubate(old(ledger), kids, babies) {
        TwoStatesMeaningless(Snapshot());
      }
    }

    method EnterKids(kids: seq<Kid>)
      requires Valid()
      modifies `channels, `indexed, `ledger
      ensures KidsMayEnter(old(ledger), kids, |kids|) ==> Valid() && ledger == EnterPreschools(old(ledger), kids)
      ensures !KidsMayEnter(old(ledger), kids, |kids|) ==> TwoStates(channels)
    {
      for i := 0 to |kids|
        invariant KidsMayEnter(old(ledger), kids, i) ==> Valid() && ledger == EnterPreschools(old(ledger), kids[..i])
        invariant !KidsMayEnter(old(ledger), kids, i) ==> TwoStates(channels)
      {
        assert kids[..i + 1][..i] == kids[..i];
        EnterPreschool(kids[i]);
      }
      assert kids[..|kids|] == kids;
    }

    method EnterBabies(babies: seq<Baby>)
      modifies `channels, `heights, `indexed, `ledger
      ensures old(Valid()) && BabiesMayEnter(old(ledger), babies, |babies|) ==>
                Valid() && ledger == EnterCribs(old(ledger), babies)
      ensures old(Valid()) && !BabiesMayEnter(old(ledger), babies, |babies|) ==> TwoStates(channels)
      ensures old(TwoStates(channels)) ==> TwoStates(channels)
    {
      for i := 0 to |babies|
        invariant old(Valid()) && BabiesMayEnter(old(ledger), babies, i) ==>
                    Valid() && ledger == EnterCribs(old(ledger), babies[..i])
        invariant old(Valid()) && !BabiesMayEnter(old(ledger), babies, i) ==> TwoStates(channels)
        invariant old(TwoStates(channels)) ==> TwoStates(channels)
      {
        assert babies[..i + 1][..i] == babies[..i];
        EnterCrib(babies[i]);
      }
      assert babies[..|babies|] == babies;
    }

    /** The store stays a ledger exactly when the output is in the crib it names, new, or filed there already. */
    method CribToKinder(baby: Baby)
      requires Valid()
      modifies `channels, `heights, `indexed, `ledger
      ensures CribMovable(old(ledger), baby) ==> Valid() && ledger == NurseryLedger.CribToKinder(old(ledger), baby)
      ensures CribMovable(old(ledger), baby) ==> FiledAfterDelay(old(ledger), ledger, baby.kid)
      ensures !CribMovable(old(ledger), baby) ==> !exists l :: Represents(Snapshot(), l)
    {
      CribFiledAfterDelay(ledger, baby);
      CribMoveIff(Snapshot(), ledger, baby);
      MoveCrib(baby);
      indexed, ledger := true, NurseryLedger.CribToKinder(ledger, baby);
    }

    /** The writes of CribToKinder, whatever the store holds. */
    method MoveCrib(baby: Baby)
      requires NoEmptyHeight(heights)
      modifies `channels, `heights
      ensures Snapshot() == CribMoved(old(Snapshot()), baby)
    {
      var kid := baby.kid;
      var key := Key(CribP, kid.op);
      channels := DeleteOutput(channels, kid.chan, key);
      RemoveOutputFromHeight(baby.expiry, kid.chan, key);
      key := key.(prefix := KndrP);
      channels := PutOutput(channels, kid.chan, key, KidRecord(kid));
      heights := PutEntry(heights, kid.confHeight + kid.blocksToMaturity, kid.chan, key);
    }

    method PreschoolToKinder(kid: Kid)
      requires Valid()
      modifies `channels, `heights, `indexed, `ledger
      ensures PreschoolMovable(old(ledger), kid) ==>
                Valid() && ledger == NurseryLedger.PreschoolToKinder(old(ledger), kid)
      ensures PreschoolMovable(old(ledger), kid) ==> FiledPromptly(old(ledger), ledger, kid)
      ensures !PreschoolMovable(old(ledger), kid) ==> !exists l :: Represents(Snapshot(), l)
    {
      indexed := true;
      var key := Key(PsclP, kid.op);
      channels := DeleteOutput(channels, kid.chan, key);
      key := key.(prefix := KndrP);
      channels := PutOutput(channels, kid.chan, key, KidRecord(kid));
      var maturity := 0;
      if kid.blocksToMaturity == 0 {
        maturity := kid.absoluteMaturity;
      } else {
        maturity := kid.confHeight + kid.blocksToMaturity;
      }
      if maturity <= lastGraduated {
        maturity := lastGraduated + 1;
      }
      heights := PutEntry(heights, maturity, kid.chan, key);
      PreschoolMoveIff(old(Snapshot()), old(ledger), kid);
      assert Snapshot() == PreschoolMoved(old(Snapshot()), kid, PreschoolTarget(old(ledger), kid));
      PreschoolFiledPromptly(ledger, kid);
      ledger := NurseryLedger.PreschoolToKinder(ledger, kid);
    }

    /** The whole class of a height moves to the graduated state; its transaction is deleted. */
    method GraduateKinder(h: nat) returns (err: Option<StoreError>)
      requires Valid()
      modifies `channels, `heights, `ledger
      ensures err.None?
      ensures Valid() && ledger == NurseryLedger.GraduateKinder(old(ledger), h)
      ensures ClassGraduated(old(ledger), ledger, h)
    {
      err := None;
      GraduateKinderClass(ledger, h);
      GraduateKinderCoherent(ledger, h);
      if h !in heights {
        LiveHeights(heights, ledger, h);
        NothingToGraduate(ledger, h);
        return;
      }
      LiveIsIndexed(Snapshot(), ledger, h);
      ghost var l0 := ledger.(finalTxs := ledger.finalTxs - {h});
      SetTx(heights, ledger, h, None);
      heights := heights[h := heights[h].(finalTx := None)];
      err := GraduateLive(h, l0);
      GraduateAll(ledger, h);
      ledger := NurseryLedger.GraduateKinder(ledger, h);
    }

    /** Scan the height and move what is found there. */
    method GraduateLive(h: nat, ghost l: Ledger) returns (err: Option<StoreError>)
      requires Represents(Snapshot(), l) && Coherent(l.(finalTxs := map[])) && h !in l.finalTxs
      modifies `channels, `heights
      ensures err.None?
      ensures Represents(Snapshot(), GraduateSome(l, h, {}))
    {
      NoMissing(Snapshot(), l, h);
      var items;
      err, items := ForEachHeightPrefix(KndrP, h);
      KndrItems(items, Snapshot(), l, h);
      err := GraduateItems(h, items, l);
    }

    method GraduateItems(h: nat, items: seq<Item>, ghost l: Ledger) returns (err: Option<StoreError>)
      requires Represents(Snapshot(), l) && h !in l.finalTxs && IsClass(items, l, h)
      modifies `channels, `heights
      ensures err.None?
      ensures Represents(Snapshot(), GraduateSome(l, h, {}))
    {
      err := None;
      LeftStart(items, l, h);
      for i := 0 to |items|
        invariant err.None?
        invariant Represents(Snapshot(), GraduateSome(l, h, Left(items, i)))
      {
        if items[i].record.KidRecord? {
          GraduateOne(h, items[i].record.kid, items, i, l);
        } else {
          err := Some(BadRecord);
        }
      }
      assert Left(items, |items|) == {};
    }

    /** Move one record from its kindergarten key to its graduated key. */
    method GraduateOne(h: nat, kid: Kid, ghost items: seq<Item>, ghost i: nat, ghost l: Ledger)
      requires h !in l.finalTxs && IsClass(items, l, h) && i < |items| && items[i].record == KidRecord(kid)
      requires Represents(Snapshot(), GraduateSome(l, h, Left(items, i)))
      modifies `channels, `heights
      ensures Represents(Snapshot(), GraduateSome(l, h, Left(items, i + 1)))
    {
      LeftStep(items, l, h, i);
      GraduateOneMove(Snapshot(), l, h, Left(items, i), IdOf(kid));
      var key := Key(KndrP, kid.op);
      RemoveOutputFromHeight(h, kid.chan, key);
      channels := DeleteOutput(channels, kid.chan, key);
      key := key.(prefix := GradP);
      channels := PutOutput(channels, kid.chan, key, KidRecord(kid));
    }

    /** Record the height as finalized and, if there is one, its sweep transaction. */
    method FinalizeKinder(h: nat, tx: Option<Tx>)
      requires Valid()
      modifies `heights, `lastFinalized, `ledger
      ensures Represents(Snapshot(), ledger) && ledger == NurseryLedger.FinalizeKinder(old(ledger), h, tx)
      ensures Valid() <==> MayFinalize(old(ledger), h, tx)
    {
      LiveHeights(heights, ledger, h);
      FinalizeCoherentIff(ledger, h, tx);
      lastFinalized := h;
      if tx.Some? && h in heights {
        heights := heights[h := heights[h].(finalTx := tx)];
        SetTx(old(heights), ledger, h, tx);
      }
      ledger := NurseryLedger.FinalizeKinder(ledger, h, tx);
    }

    method GraduateHeight(h: nat)
      requires Valid()
      modifies `lastGraduated, `ledger
      ensures Valid() && ledger == NurseryLedger.GraduateHeight(old(ledger), h)
    {
      lastGraduated := h;
      ledger := ledger.(lastGraduated := h);
      assert forall g :: Class(ledger, g) == Class(old(ledger), g);
    }

    /** The transaction, the kindergarten class and the expiring cribs of a height; never an error. */
    method FetchClass(h: nat)
      returns (err: Option<StoreError>, tx: Option<Tx>, kids: seq<Kid>, babies: seq<Baby>)
      requires Valid()
      ensures err.None?
      ensures tx == if h in ledger.finalTxs then Some(ledger.finalTxs[h]) else None
      ensures ListsClass(ledger, h, kids) && ListsCribs(ledger, h, babies)
    {
      tx := if h in heights then heights[h].finalTx else None;
      err, kids, babies := None, [], [];
      err, babies := FetchCribs(h);
      if err.None? {
        err, kids := FetchKinder(h);
      }
    }

    method FetchCribs(h: nat) returns (err: Option<StoreError>, babies: seq<Baby>)
      requires Valid()
      ensures err.None? && ListsCribs(ledger, h, babies)
    {
      NoMissing(Snapshot(), ledger, h);
      babies := [];
      var cribs;
      err, cribs := ForEachHeightPrefix(CribP, h);
      CribItems(cribs, Snapshot(), ledger, h);
      for i := 0 to |cribs|
        invariant err.None?
        invariant |babies| == i
        invariant forall j | 0 <= j < i :: cribs[j].record == BabyRecord(babies[j])
      {
        if cribs[i].record.BabyRecord? {
          babies := babies + [cribs[i].record.baby];
        } else {
          err := Some(BadRecord);
        }
      }
      assert forall i | 0 <= i < |babies| :: IdOf(babies[i].kid) == IdAt(cribs[i]);
    }

    method FetchKinder(h: nat) returns (err: Option<StoreError>, kids: seq<Kid>)
      requires Valid()
      ensures err.None? && ListsClass(ledger, h, kids)
    {
      NoMissing(Snapshot(), ledger, h);
      kids := [];
      var kndrs;
      err, kndrs := ForEachHeightPrefix(KndrP, h);
      KndrItems(kndrs, Snapshot(), ledger, h);
      for i := 0 to |kndrs|
        invariant err.None?
        invariant |kids| == i
        invariant forall j | 0 <= j < i :: kndrs[j].record == KidRecord(kids[j])
      {
        if kndrs[i].record.KidRecord? {
          kids := kids + [kndrs[i].record.kid];
        } else {
          err := Some(BadRecord);
        }
      }
      assert forall i | 0 <= i < |kids| :: IdOf(kids[i]) == IdAt(kndrs[i]);
    }

    method IsMatureChannel(c: OutPoint) returns (err: Option<StoreError>, mature: bool)
      requires Valid()
      ensures err.Some? <==> Maturity(ledger, c).None?
      ensures err.Some? ==> err == Some(ContractNotFound) && !mature
      ensures err.None? ==> Maturity(ledger, c) == Some(mature)
    {
      KnownChannels(channels, ledger, c);
      if c !in channels {
        return Some(ContractNotFound), false;
      }
      err, mature := None, true;
      var keys := channels[c].Keys;
      while keys != {}
        invariant keys <= channels[c].Keys
        invariant mature <==> forall k <- channels[c] | k !in keys :: k.prefix == GradP
      {
        var k :| k in keys;
        keys := keys - {k};
        mature := mature && k.prefix == GradP;
      }
      MatureKeys(channels, ledger, c);
    }

    /** Erase a channel whose outputs have all graduated; otherwise the transaction is rolled back. */
    method RemoveChannel(c: OutPoint) returns (err: Option<StoreError>)
      requires Valid()
      modifies `channels, `heights, `ledger
      ensures Valid() && ledger == NurseryLedger.RemoveChannel(old(ledger), c)
      ensures RemovedIfMature(old(ledger), ledger, c)
      ensures err == match Maturity(old(ledger), c)
                     case None => if indexed then Some(ContractNotFound) else None
                     case Some(mature) => if mature then None else Some(ImmatureChannel)
      ensures Maturity(old(ledger), c) != Some(true) ==> Snapshot() == old(Snapshot())
    {
      KnownChannels(channels, ledger, c);
      RemoveChannelExact(ledger, c);
      if !indexed {
        return None;
      }
      if c !in channels {
        return Some(ContractNotFound);
      }
      MatureKeys(channels, ledger, c);
      err := None;
      var saved, keys := heights, channels[c].Keys;
      while keys != {}
        invariant err.None?
        invariant channels == old(channels) && ledger == old(ledger)
        invariant keys <= channels[c].Keys
        invariant forall k <- channels[c] | k !in keys :: k.prefix == GradP
        invariant Maturity(ledger, c) == Some(true) ==> heights == old(heights)
      {
        var k :| k in keys;
        keys := keys - {k};
        if k.prefix != GradP {
          heights := saved;
          return Some(ImmatureChannel);
        }
        assert Lookup(channels, c, k) == Entry(ledger, c, k);
        if channels[c][k].KidRecord? {
          var kid := channels[c][k].kid;
          var h := kid.confHeight + kid.blocksToMaturity;
          if h in heights && c in heights[h].chans {
            if Maturity(ledger, c) == Some(true) {
              MatureNotFiled(heights, ledger, c);
            }
            heights := heights[h := heights[h].(chans := heights[h].chans - {c})];
          }
        } else {
          err := Some(BadRecord);
        }
      }
      RemovalRepresented(old(Snapshot()), ledger, c);
      channels := channels - {c};
      RemoveChannelCoherent(ledger, c);
      ledger := NurseryLedger.RemoveChannel(ledger, c);
    }
  }

  /** On a new store: an output that is incubated again after it has moved on leaves no ledger at all. */
  method IncubatedTwice(kid: Kid) returns (store: Store)
    ensures !exists l :: Represents(store.Snapshot(), l)
  {
    store := new Store();
    MayIncubateOne(store.ledger, kid);
    store.Incubate([kid], []);
    store.PreschoolToKinder(kid);
    MayIncubateOne(store.ledger, kid);
    store.Incubate([kid], []);
  }

  lemma MayIncubateOne(l: Ledger, kid: Kid)
    ensures MayIncubate(l, [kid], []) <==> MayEnterPreschool(l, kid)
    ensures NurseryLedger.Incubate(l, [kid], []) == NurseryLedger.EnterPreschool(l, kid)
  {
    assert [kid][..0] == [];
    assert EnterPreschools(l, [kid][..0]) == l;
  }

  /****** Lemmas behind the transactions ******/

  /** Every output of a list may enter at its turn. */
  ghost predicate MayIncubate(l: Ledger, kids: seq<Kid>, babies: seq<Baby>) {
    KidsMayEnter(l, kids, |kids|) && BabiesMayEnter(EnterPreschools(l, kids), babies, |babies|)
  }

  ghost predicate KidsMayEnter(l: Ledger, kids: seq<Kid>, n: nat)
    requires n <= |kids|
  {
    forall i | 0 <= i < n :: MayEnterPreschool(EnterPreschools(l, kids[..i]), kids[i])
  }

  ghost predicate BabiesMayEnter(l: Ledger, babies: seq<Baby>, n: nat)
    requires n <= |babies|
  {
    forall i | 0 <= i < n :: MayEnterCrib(EnterCribs(l, babies[..i]), babies[i])
  }

  /** What writing a preschool record makes of a store without that key. */
  lemma PreschoolEntered(db: Db, l: Ledger, kid: Kid)
    requires Represents(db, l) && Coherent(l) && Lookup(db.channels, kid.chan, Key(PsclP, kid.op)).None?
    ensures var ci := PutOutput(db.channels, kid.chan, Key(PsclP, kid.op), KidRecord(kid));
            if IdOf(kid) in l.stages then !MayEnterPreschool(l, kid) && TwoStates(ci)
            else Represents(db.(channels := ci), NurseryLedger.EnterPreschool(l, kid))
                 && Coherent(NurseryLedger.EnterPreschool(l, kid))
  {
    var id, key := IdOf(kid), Key(PsclP, kid.op);
    var ci := PutOutput(db.channels, kid.chan, key, KidRecord(kid));
    if id in l.stages {
      SecondKey(db.channels, l, id, key, KidRecord(kid));
    } else {
      EnterKeepsChannels(db.channels, l, id, Pscl(kid));
      WriteCoherent(l, id, Pscl(kid));
      UnscheduledKeepsHeights(db.heights, l, id, Pscl(kid));
    }
  }

  lemma CribEntered(db: Db, l: Ledger, baby: Baby)
    requires Represents(db, l) && Coherent(l) && Lookup(db.channels, baby.kid.chan, Key(CribP, baby.kid.op)).None?
    ensures var key := Key(CribP, baby.kid.op);
            var ci := PutOutput(db.channels, baby.kid.chan, key, BabyRecord(baby));
            var hi := PutEntry(db.heights, baby.expiry, baby.kid.chan, key);
            if IdOf(baby.kid) in l.stages then !MayEnterCrib(l, baby) && TwoStates(ci)
            else Represents(db.(channels := ci, heights := hi), NurseryLedger.EnterCrib(l, baby))
                 && Coherent(NurseryLedger.EnterCrib(l, baby))
  {
    var id, key := IdOf(baby.kid), Key(CribP, baby.kid.op);
    if id in l.stages {
      SecondKey(db.channels, l, id, key, BabyRecord(baby));
    } else {
      EnterKeepsChannels(db.channels, l, id, Crib(baby));
      FileKeepsHeights(db.heights, l, id, Crib(baby));
      WriteCoherent(l, id, Crib(baby));
    }
  }

  /** A record under a second prefix, next to the one the ledger knows. */
  lemma SecondKey(ci: ChanIndex, l: Ledger, id: Id, key: Key, r: Record)
    requires ChannelsAgree(ci, l) && id in l.stages && key.op == id.op
    ensures StageKey(id, l.stages[id]) == key <==> Lookup(ci, id.chan, key).Some?
    ensures StageKey(id, l.stages[id]) != key ==> TwoStates(PutOutput(ci, id.chan, key, r))
  {
    var k2 := StageKey(id, l.stages[id]);
    assert Lookup(ci, id.chan, k2) == Entry(l, id.chan, k2);
    assert Lookup(ci, id.chan, key) == Entry(l, id.chan, key);
    if k2 != key {
      assert BothHeld(PutOutput(ci, id.chan, key, r), id.chan, key, k2);
    }
  }

  /** The buckets after the writes of PreschoolToKinder. */
  function PreschoolMoved(db: Db, kid: Kid, h: nat): Db {
    var ci := DeleteOutput(db.channels, kid.chan, Key(PsclP, kid.op));
    db.(channels := PutOutput(ci, kid.chan, Key(KndrP, kid.op), KidRecord(kid)),
        heights := PutEntry(db.heights, h, kid.chan, Key(KndrP, kid.op)))
  }

  lemma PreschoolMoveIff(db: Db, l: Ledger, kid: Kid)
    requires Represents(db, l) && Coherent(l)
    ensures var db', l' := PreschoolMoved(db, kid, PreschoolTarget(l, kid)), NurseryLedger.PreschoolToKinder(l, kid);
            if PreschoolMovable(l, kid) then Represents(db', l') && Coherent(l') else !exists l2 :: Represents(db', l2)
  {
    var id, h := IdOf(kid), PreschoolTarget(l, kid);
    var s := Kndr(kid, h);
    if InPreschool(l, kid) {
      MoveKeepsChannels(db.channels, l, id, s);
      FileKeepsHeights(db.heights, l, id, s);
      WriteCoherent(l, id, s);
    } else {
      var k := Key(PsclP, kid.op);
      assert Lookup(db.channels, kid.chan, k) == Entry(l, kid.chan, k);
      DeleteAbsent(db.channels, kid.chan, k);
      KinderWritten(db, l, kid, h);
    }
  }

  /** Writing a kindergarten record and entry without taking anything away. */
  lemma KinderWritten(db: Db, l: Ledger, kid: Kid, h: nat)
    requires Represents(db, l) && Coherent(l)
    ensures var k := Key(KndrP, kid.op);
            var db' := db.(channels := PutOutput(db.channels, kid.chan, k, KidRecord(kid)),
                           heights := PutEntry(db.heights, h, kid.chan, k));
            var l' := l.(stages := l.stages[IdOf(kid) := Kndr(kid, h)]);
            if IdOf(kid) !in l.stages || KndrAt(l, IdOf(kid), h) then Represents(db', l') && Coherent(l')
            else !exists l2 :: Represents(db', l2)
  {
    var id, s, k := IdOf(kid), Kndr(kid, h), Key(KndrP, kid.op);
    var db' := db.(channels := PutOutput(db.channels, kid.chan, k, KidRecord(kid)),
                   heights := PutEntry(db.heights, h, kid.chan, k));
    if id !in l.stages {
      EnterKeepsChannels(db.channels, l, id, s);
      FileKeepsHeights(db.heights, l, id, s);
      WriteCoherent(l, id, s);
    } else if KndrAt(l, id, h) {
      RewriteKeeps(db, l, kid, h);
      RewriteCoherent(l, kid, h);
    } else if l.stages[id].Kndr? {
      assert Files(l, l.stages[id].height, kid.chan, k);
      assert HasEntry(db.heights, l.stages[id].height, kid.chan, k);
      TwoHeightsUnrepresentable(db', l.stages[id].height, h, kid.chan, k);
    } else {
      SecondKey(db.channels, l, id, k, KidRecord(kid));
      TwoStatesMeaningless(db');
    }
  }

  /** The buckets after the writes of CribToKinder. */
  function CribMoved(db: Db, baby: Baby): Db
    requires NoEmptyHeight(db.heights)
  {
    var kid := baby.kid;
    var ci := DeleteOutput(db.channels, kid.chan, Key(CribP, kid.op));
    db.(channels := PutOutput(ci, kid.chan, Key(KndrP, kid.op), KidRecord(kid)),
        heights := PutEntry(WithoutEntry(db.heights, baby.expiry, kid.chan, Key(CribP, kid.op)),
                            CribTarget(baby), kid.chan, Key(KndrP, kid.op)))
  }

  lemma CribMoveIff(db: Db, l: Ledger, baby: Baby)
    requires Represents(db, l) && Coherent(l)
    ensures var db', l' := CribMoved(db, baby), NurseryLedger.CribToKinder(l, baby);
            if CribMovable(l, baby) then Represents(db', l') && Coherent(l') else !exists l2 :: Represents(db', l2)
  {
    var kid, k := baby.kid, Key(CribP, baby.kid.op);
    assert Lookup(db.channels, kid.chan, k) == Entry(l, kid.chan, k);
    assert HasEntry(db.heights, baby.expiry, kid.chan, k) <==> Files(l, baby.expiry, kid.chan, k);
    if InCrib(l, baby) {
      CribMove(db, l, baby);
    } else if Lookup(db.channels, kid.chan, k).Some? {
      var e := l.stages[IdOf(kid)].baby.expiry;
      assert Files(l, e, kid.chan, k);
      assert HasEntry(db.heights, e, kid.chan, k);
      assert HasEntry(WithoutEntry(db.heights, baby.expiry, kid.chan, k), e, kid.chan, k);
      DanglingUnrepresentable(CribMoved(db, baby), e, kid.chan, k);
    } else {
      DeleteAbsent(db.channels, kid.chan, k);
      UnfileAbsent(db.heights, baby.expiry, kid.chan, k);
      KinderWritten(db, l, kid, CribTarget(baby));
    }
  }

  lemma UnscheduledKeepsHeights(hi: HeightIndex, l: Ledger, id: Id, s: Stage)
    requires HeightsAgree(hi, l) && ScheduledAt(s).None?
    requires id in l.stages ==> ScheduledAt(l.stages[id]).None?
    ensures HeightsAgree(hi, l.(stages := l.stages[id := s]))
  {
    var l' := l.(stages := l.stages[id := s]);
    forall h: nat, c, k
      ensures HasEntry(hi, h, c, k) <==> Files(l', h, c, k)
    {
      assert HasEntry(hi, h, c, k) <==> Files(l, h, c, k);
    }
  }

  /** Crib to kindergarten: the entry leaves one height and joins another. */
  lemma CribMove(db: Db, l: Ledger, baby: Baby)
    requires Represents(db, l) && Coherent(l) && InCrib(l, baby)
    ensures var kid := baby.kid;
            var ci := MoveOutput(db.channels, IdOf(kid), CribP, Kndr(kid, CribTarget(baby)));
            var hi := PutEntry(WithoutEntry(db.heights, baby.expiry, kid.chan, Key(CribP, kid.op)),
                               CribTarget(baby), kid.chan, Key(KndrP, kid.op));
            && Represents(Db(ci, hi, db.lastFinalized, db.lastGraduated), NurseryLedger.CribToKinder(l, baby))
            && Coherent(NurseryLedger.CribToKinder(l, baby))
  {
    var id, s := IdOf(baby.kid), Kndr(baby.kid, CribTarget(baby));
    MoveKeepsChannels(db.channels, l, id, s);
    var l1 := l.(stages := l.stages[id := Pscl(baby.kid)]);
    assert Class(l, baby.expiry) - {id} == Class(l, baby.expiry);
    UnfileKeepsHeights(db.heights, l, id, Pscl(baby.kid));
    FileKeepsHeights(WithoutEntry(db.heights, baby.expiry, id.chan, Key(CribP, id.op)), l1, id, s);
    assert l1.stages[id := s] == l.stages[id := s];
    WriteCoherent(l, id, s);
  }

  /** Writing or deleting the transaction of a live height. */
  lemma SetTx(hi: HeightIndex, l: Ledger, h: nat, tx: Option<Tx>)
    requires HeightsAgree(hi, l) && h in hi
    ensures HeightsAgree(hi[h := hi[h].(finalTx := tx)],
                         l.(finalTxs := if tx.Some? then l.finalTxs[h := tx.value] else l.finalTxs - {h}))
  {
    var hi' := hi[h := hi[h].(finalTx := tx)];
    var l' := l.(finalTxs := if tx.Some? then l.finalTxs[h := tx.value] else l.finalTxs - {h});
    assert FullBucket(hi'[h]);
    forall g: nat, c, k
      ensures HasEntry(hi', g, c, k) <==> Files(l', g, c, k)
    {
      assert HasEntry(hi, g, c, k) <==> Files(l, g, c, k);
    }
    forall g: nat
      ensures TxAt(hi', g) == if g in l'.finalTxs then Some(l'.finalTxs[g]) else None
    {
      assert TxAt(hi, g) == if g in l.finalTxs then Some(l.finalTxs[g]) else None;
    }
  }

  lemma NothingToGraduate(l: Ledger, h: nat)
    requires Coherent(l) && Scheduled(l, h) == {}
    ensures NurseryLedger.GraduateKinder(l, h) == l
  {
    assert forall id <- l.stages :: KndrAt(l, id, h) ==> id in Scheduled(l, h);
    assert h in l.finalTxs ==> exists id :: id in Class(l, h) && id in Scheduled(l, h);
    assert l.finalTxs - {h} == l.finalTxs;
    assert NurseryLedger.GraduateKinder(l, h).stages == l.stages;
  }

  /** In a store that agrees with a ledger no lookup through the height index can fail. */
  lemma NoMissing(db: Db, l: Ledger, h: nat)
    requires ChannelsAgree(db.channels, l) && HeightsAgree(db.heights, l)
    ensures forall c, k :: HasEntry(db.heights, h, c, k) ==> Lookup(db.channels, c, k).Some?
    ensures h in db.heights ==> forall c <- db.heights[h].chans :: c in db.channels
  {
    forall c, k | HasEntry(db.heights, h, c, k)
      ensures Lookup(db.channels, c, k).Some?
    {
      assert Files(l, h, c, k);
    }
    if h in db.heights {
      forall c | c in db.heights[h].chans
        ensures c in db.channels
      {
        assert FullBucket(db.heights[h]);
        var k :| k in db.heights[h].chans[c];
        assert HasEntry(db.heights, h, c, k);
      }
    }
  }

  lemma LiveIsIndexed(db: Db, l: Ledger, h: nat)
    requires Represents(db, l) && h in db.heights
    ensures db.channels != map[]
  {
    NoMissing(db, l, h);
    assert FullBucket(db.heights[h]);
    var c :| c in db.heights[h].chans;
    assert c in db.channels;
  }

  /** The ledger while a class is being graduated: of its members only `left` is still in kindergarten. */
  function GraduateSome(l: Ledger, h: nat, left: set<Id>): Ledger {
    l.(stages := map id | id in l.stages ::
         if KndrAt(l, id, h) && id !in left then Grad(l.stages[id].kid) else l.stages[id])
  }

  lemma GraduateAll(l: Ledger, h: nat)
    ensures GraduateSome(l, h, Class(l, h)) == l
    ensures var l0 := l.(finalTxs := l.finalTxs - {h}); GraduateSome(l0, h, {}) == NurseryLedger.GraduateKinder(l, h)
  {
    assert GraduateSome(l, h, Class(l, h)).stages == l.stages;
    var l0 := l.(finalTxs := l.finalTxs - {h});
    assert GraduateSome(l0, h, {}).stages == NurseryLedger.GraduateKinder(l, h).stages;
  }

  lemma GraduateOneMove(db: Db, l: Ledger, h: nat, left: set<Id>, id: Id)
    requires Represents(db, GraduateSome(l, h, left))
    requires left <= Class(l, h) && id in left && h !in l.finalTxs
    ensures var kid := l.stages[id].kid;
            Represents(db.(channels := MoveOutput(db.channels, id, KndrP, Grad(kid)),
                           heights := WithoutEntry(db.heights, h, id.chan, Key(KndrP, id.op))),
                       GraduateSome(l, h, left - {id}))
  {
    var l1, s := GraduateSome(l, h, left), Grad(l.stages[id].kid);
    MoveKeepsChannels(db.channels, l1, id, s);
    UnfileKeepsHeights(db.heights, l1, id, s);
    assert l1.stages[id := s] == GraduateSome(l, h, left - {id}).stages;
  }

  ghost function ChansAt(hi: HeightIndex, h: nat): set<OutPoint> {
    if h in hi then hi[h].chans.Keys else {}
  }

  function IdAt(item: Item): Id {
    Id(item.chan, item.key.op)
  }

  /** `items` are the decoded members of a kindergarten class, once each. */
  ghost predicate IsClass(items: seq<Item>, l: Ledger, h: nat) {
    && (forall i | 0 <= i < |items| ::
          && KndrAt(l, IdAt(items[i]), h)
          && items[i].record == KidRecord(l.stages[IdAt(items[i])].kid)
          && IdOf(items[i].record.kid) == IdAt(items[i]))
    && (forall id | KndrAt(l, id, h) :: exists i :: 0 <= i < |items| && IdAt(items[i]) == id)
    && (forall i, j | 0 <= i < j < |items| :: IdAt(items[i]) != IdAt(items[j]))
  }

  /** The members that a loop over `items` has not reached yet. */
  ghost function Left(items: seq<Item>, i: nat): set<Id> {
    set j | i <= j < |items| :: IdAt(items[j])
  }

  lemma LeftStart(items: seq<Item>, l: Ledger, h: nat)
    requires IsClass(items, l, h)
    ensures GraduateSome(l, h, Left(items, 0)) == l
  {
    assert Left(items, 0) == Class(l, h);
    GraduateAll(l, h);
  }

  lemma LeftStep(items: seq<Item>, l: Ledger, h: nat, i: nat)
    requires IsClass(items, l, h) && i < |items|
    ensures Left(items, i) <= Class(l, h)
    ensures IdAt(items[i]) in Left(items, i) && Left(items, i + 1) == Left(items, i) - {IdAt(items[i])}
  {
  }

  /** What the kindergarten scan of a height finds is its class, decoded. */
  lemma KndrItems(items: seq<Item>, db: Db, l: Ledger, h: nat)
    requires ChannelsAgree(db.channels, l) && HeightsAgree(db.heights, l) && Coherent(l.(finalTxs := map[]))
    requires ListsItems(items, db, h, KndrP, ChansAt(db.heights, h))
    ensures IsClass(items, l, h)
  {
    forall i | 0 <= i < |items|
      ensures KndrAt(l, IdAt(items[i]), h) && items[i].record == KidRecord(l.stages[IdAt(items[i])].kid)
    {
      assert HasEntry(db.heights, h, items[i].chan, items[i].key);
      assert Files(l, h, items[i].chan, items[i].key);
      assert Lookup(db.channels, items[i].chan, items[i].key) == Entry(l, items[i].chan, items[i].key);
    }
    forall id | KndrAt(l, id, h)
      ensures exists i :: 0 <= i < |items| && IdAt(items[i]) == id
    {
      var k := Key(KndrP, id.op);
      assert Files(l, h, id.chan, k);
      assert HasEntry(db.heights, h, id.chan, k);
      var i :| 0 <= i < |items| && items[i].chan == id.chan && items[i].key == k;
      assert IdAt(items[i]) == id;
    }
  }

  lemma CribItems(items: seq<Item>, db: Db, l: Ledger, h: nat)
    requires ChannelsAgree(db.channels, l) && HeightsAgree(db.heights, l) && Coherent(l)
    requires ListsItems(items, db, h, CribP, ChansAt(db.heights, h))
    ensures forall i | 0 <= i < |items| ::
              && IdAt(items[i]) in l.stages && l.stages[IdAt(items[i])].Crib?
              && items[i].record == BabyRecord(l.stages[IdAt(items[i])].baby)
              && items[i].record.baby.expiry == h && IdOf(items[i].record.baby.kid) == IdAt(items[i])
    ensures forall id <- l.stages | l.stages[id].Crib? && l.stages[id].baby.expiry == h ::
              exists i :: 0 <= i < |items| && IdAt(items[i]) == id
    ensures forall i, j | 0 <= i < j < |items| :: IdAt(items[i]) != IdAt(items[j])
  {
    forall i | 0 <= i < |items|
      ensures IdAt(items[i]) in l.stages && l.stages[IdAt(items[i])].Crib?
      ensures items[i].record == BabyRecord(l.stages[IdAt(items[i])].baby) && items[i].record.baby.expiry == h
    {
      assert HasEntry(db.heights, h, items[i].chan, items[i].key);
      assert Files(l, h, items[i].chan, items[i].key);
      assert Lookup(db.channels, items[i].chan, items[i].key) == Entry(l, items[i].chan, items[i].key);
    }
    forall id | id in l.stages && l.stages[id].Crib? && l.stages[id].baby.expiry == h
      ensures exists i :: 0 <= i < |items| && IdAt(items[i]) == id
    {
      var k := Key(CribP, id.op);
      assert Files(l, h, id.chan, k);
      assert HasEntry(db.heights, h, id.chan, k);
      var i :| 0 <= i < |items| && items[i].chan == id.chan && items[i].key == k;
      assert IdAt(items[i]) == id;
    }
  }

  /** The keys of a channel bucket tell its maturity. */
  lemma MatureKeys(ci: ChanIndex, l: Ledger, c: OutPoint)
    requires ChannelsAgree(ci, l) && c in ci
    ensures Maturity(l, c) == Some(forall k <- ci[c] :: k.prefix == GradP)
  {
    KnownChannels(ci, l, c);
    if forall k <- ci[c] :: k.prefix == GradP {
      forall id | id in ChannelIds(l, c)
        ensures l.stages[id].Grad?
      {
        assert Lookup(ci, c, StageKey(id, l.stages[id])) == Entry(l, c, StageKey(id, l.stages[id]));
      }
    } else {
      var k :| k in ci[c] && k.prefix != GradP;
      assert Lookup(ci, c, k) == Entry(l, c, k);
      assert Id(c, k.op) in ChannelIds(l, c) && !l.stages[Id(c, k.op)].Grad?;
    }
  }

  /** A mature channel has no entry at any height. */
  lemma MatureNotFiled(hi: HeightIndex, l: Ledger, c: OutPoint)
    requires HeightsAgree(hi, l) && Maturity(l, c) == Some(true)
    ensures forall h <- hi :: c !in hi[h].chans
  {
    forall h: nat, k
      ensures !HasEntry(hi, h, c, k)
    {
      assert Holds(l, c, k) ==> Id(c, k.op) in ChannelIds(l, c);
    }
    forall h | h in hi
      ensures c !in hi[h].chans
    {
      FiledChannel(hi, h, c);
    }
  }

  lemma FiledChannel(hi: HeightIndex, h: nat, c: OutPoint)
    requires NoEmptyHeight(hi) && h in hi
    ensures c in hi[h].chans <==> exists k :: HasEntry(hi, h, c, k)
  {
    assert FullBucket(hi[h]);
    if c in hi[h].chans {
      var k :| k in hi[h].chans[c];
      assert HasEntry(hi, h, c, k);
    }
  }

  /** Dropping a mature channel's bucket is the removal of its outputs, and of nothing else. */
  lemma RemovalRepresented(db: Db, l: Ledger, c: OutPoint)
    requires Represents(db, l) && Maturity(l, c) == Some(true)
    ensures Represents(db.(channels := db.channels - {c}), NurseryLedger.RemoveChannel(l, c))
  {
    var l', ci := NurseryLedger.RemoveChannel(l, c), db.channels - {c};
    forall d, k
      ensures Lookup(ci, d, k) == Entry(l', d, k)
      ensures forall h: nat :: HasEntry(db.heights, h, d, k) <==> Files(l', h, d, k)
    {
      assert Lookup(db.channels, d, k) == Entry(l, d, k);
      assert d == c ==> !Holds(l', d, k);
      assert d != c ==> Entry(l', d, k) == Entry(l, d, k);
      assert forall h: nat :: HasEntry(db.heights, h, d, k) <==> Files(l, h, d, k);
      assert d == c && Holds(l, d, k) ==> Id(c, k.op) in ChannelIds(l, c);
    }
  }

  lemma ListsConcat(xs: seq<Item>, ys: seq<Item>, db: Db, h: nat, p: Prefix, cs: set<OutPoint>, ds: set<OutPoint>)
    requires ListsItems(xs, db, h, p, cs) && ListsItems(ys, db, h, p, ds) && cs !! ds
    ensures ListsItems(xs + ys, db, h, p, cs + ds)
  {
    var zs := xs + ys;
    forall c, k | c in cs + ds && HasEntry(db.heights, h, c, k) && k.prefix == p
      ensures exists i :: 0 <= i < |zs| && zs[i].chan == c && zs[i].key == k
    {
      if c in cs {
        var i :| 0 <= i < |xs| && xs[i].chan == c && xs[i].key == k;
        assert zs[i] == xs[i];
      } else {
        var i :| 0 <= i < |ys| && ys[i].chan == c && ys[i].key == k;
        assert zs[|xs| + i] == ys[i];
      }
    }
  }
}
