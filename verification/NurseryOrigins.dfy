/**
  Where swept outputs come from and what sweeps pay, over whole runs: every input of a sweep is an
  output that was incubated, with the lock it was incubated with, and the amounts are theirs.
*/
module NurseryOrigins {
  import opened Chain
  import opened NurseryLedger
  import opened NurseryStore
  import opened NurserySums
  import opened NurserySweep
  import opened NurseryRun
  import opened NurserySchedule

  /****** Provenance ******/

  /** The event incubates the output, on its own or inside a baby. */
  predicate BroughtBy(e: Event, kid: Kid) {
    e.IncubateOutputs? && (kid in e.kids || exists baby <- e.babies :: baby.kid == kid)
  }

  ghost predicate Brought(es: seq<Event>, kid: Kid) {
    exists i :: 0 <= i < |es| && BroughtBy(es[i], kid)
  }

  ghost predicate BabyBrought(es: seq<Event>, baby: Baby) {
    exists i :: 0 <= i < |es| && es[i].IncubateOutputs? && baby in es[i].babies
  }

  /** The run holds a confirmation of `id` at this height. */
  ghost predicate ConfSeen(es: seq<Event>, id: Id, conf: nat) {
    exists i :: 0 <= i < |es| && (es[i] == PreschoolConf(id, conf) || es[i] == TimeoutConf(id, conf))
  }

  /** `kid` is an incubated output with the height of one of its confirmations filled in, and nothing else changed. */
  ghost predicate Grown(es: seq<Event>, kid: Kid) {
    exists k0, conf :: GrownFrom(es, kid, k0, conf)
  }

  ghost predicate GrownFrom(es: seq<Event>, kid: Kid, k0: Kid, conf: nat) {
    Brought(es, k0) && ConfSeen(es, IdOf(k0), conf) && kid == k0.(confHeight := conf)
  }

  ghost predicate HasOrigin(es: seq<Event>, s: Stage) {
    match s
    case Crib(b) => BabyBrought(es, b)
    case Pscl(k) => Brought(es, k)
    case Kndr(k, _) => Grown(es, k)
    case Grad(k) => Grown(es, k)
  }

  /** Every stored record, and every record a sweep was built from, was incubated. */
  ghost predicate Sourced(es: seq<Event>, s: Sys) {
    && Named(s.l)
    && (forall id <- s.l.stages :: HasOrigin(es, s.l.stages[id]))
    && (forall h <- s.classes, j | 0 <= j < |s.classes[h]| :: Grown(es, s.classes[h][j]))
  }

  lemma BroughtStays(es: seq<Event>, e: Event)
    ensures forall kid :: Brought(es, kid) ==> Brought(es + [e], kid)
    ensures forall baby :: BabyBrought(es, baby) ==> BabyBrought(es + [e], baby)
    ensures forall id, conf :: ConfSeen(es, id, conf) ==> ConfSeen(es + [e], id, conf)
  {
    var all := es + [e];
    assert forall i | 0 <= i < |es| :: all[i] == es[i];
    forall kid | Brought(es, kid)
      ensures Brought(all, kid)
    {
      var i :| 0 <= i < |es| && BroughtBy(es[i], kid);
      assert BroughtBy(all[i], kid);
    }
  }

  lemma OriginStays(es: seq<Event>, e: Event)
    ensures forall s :: HasOrigin(es, s) ==> HasOrigin(es + [e], s)
    ensures forall kid :: Grown(es, kid) ==> Grown(es + [e], kid)
  {
    BroughtStays(es, e);
    forall kid | Grown(es, kid)
      ensures Grown(es + [e], kid)
    {
      var k0, conf :| GrownFrom(es, kid, k0, conf);
      assert GrownFrom(es + [e], kid, k0, conf);
    }
  }

  /** What the last event brings. */
  lemma JustBrought(es: seq<Event>, kids: seq<Kid>, babies: seq<Baby>)
    ensures var all := es + [IncubateOutputs(kids, babies)];
            (forall kid <- kids :: Brought(all, kid)) && forall baby <- babies :: BabyBrought(all, baby)
  {
    var all := es + [IncubateOutputs(kids, babies)];
    assert all[|es|] == IncubateOutputs(kids, babies);
    forall kid | kid in kids
      ensures Brought(all, kid)
    {
      assert BroughtBy(all[|es|], kid);
    }
  }

  lemma IncubationSourced(es: seq<Event>, s: Sys, kids: seq<Kid>, babies: seq<Baby>)
    requires Sourced(es, s)
    ensures Sourced(es + [IncubateOutputs(kids, babies)], Next(s, IncubateOutputs(kids, babies)))
  {
    var e, l1 := IncubateOutputs(kids, babies), EnterPreschools(s.l, kids);
    var l' := Incubate(s.l, kids, babies);
    OriginStays(es, e);
    JustBrought(es, kids, babies);
    IncubateKeepsTxs(s.l, kids);
    CribsKeepTxs(l1, babies);
    PreschoolsFrom(s.l, kids);
    CribsFrom(l1, babies);
    PreschoolsNamed(s.l, kids);
    CribsNamed(l1, babies);
    forall id | id in l'.stages
      ensures HasOrigin(es + [e], l'.stages[id])
    {
      if id in l1.stages && id !in s.l.stages {
        var kid :| kid in kids && l1.stages[id] == Pscl(kid);
      } else if id !in l1.stages {
        var baby :| baby in babies && l'.stages[id] == Crib(baby);
      }
    }
  }

  /** A confirmation fills in its own height. */
  lemma ArrivalSourced(es: seq<Event>, s: Sys, e: Event)
    requires Sourced(es, s) && Enabled(s, e) && Arrival(s, e)
    ensures Sourced(es + [e], Next(s, e))
  {
    var all := es + [e];
    OriginStays(es, e);
    BroughtStays(es, e);
    ArrivalShape(s, e);
    assert all[|es|] == e;
    var k0 := KidOf(s.l.stages[e.id]);
    BabyKidBrought(es, s.l.stages[e.id]);
    assert ConfSeen(all, IdOf(k0), e.confHeight);
    assert GrownFrom(all, Arriving(s, e), k0, e.confHeight);
  }

  lemma BabyKidBrought(es: seq<Event>, s: Stage)
    requires HasOrigin(es, s) && (s.Crib? || s.Pscl?)
    ensures Brought(es, KidOf(s))
  {
    if s.Crib? {
      var i :| 0 <= i < |es| && es[i].IncubateOutputs? && s.baby in es[i].babies;
      assert BroughtBy(es[i], s.baby.kid);
    }
  }

  lemma SourcedStep(es: seq<Event>, s: Sys, e: Event)
    requires Sourced(es, s) && Enabled(s, e)
    ensures Sourced(es + [e], Next(s, e))
  {
    OriginStays(es, e);
    if e.IncubateOutputs? {
      IncubationSourced(es, s, e.kids, e.babies);
    } else if Arrival(s, e) {
      ArrivalSourced(es, s, e);
    } else {
      var s' := Next(s, e);
      forall id | id in s'.l.stages
        ensures id in s.l.stages && KidOf(s'.l.stages[id]) == KidOf(s.l.stages[id])
        ensures HasOrigin(es, s'.l.stages[id])
      {
        assert HasOrigin(es, s.l.stages[id]);
      }
    }
  }

  lemma {:induction false} RunSourced(l: Ledger, s: Sys, es: seq<Event>)
    requires Started(l, s) && Legal(s, es)
    ensures Sourced(es, Exec(s, es))
    decreases |es|
  {
    if es != [] {
      var rest, e := es[..|es| - 1], es[|es| - 1];
      assert es == rest + [e];
      RunSnoc(s, rest, e);
      RunSourced(l, s, rest);
      SourcedStep(rest, Exec(s, rest), e);
    }
  }

  /**
    In every run each record is one that was incubated: untouched before its confirmation, and with
    nothing but the height of one of its confirmations filled in afterwards.
  */
  lemma RecordsComeFromIncubation(l: Ledger, s: Sys, es: seq<Event>, id: Id)
    requires Started(l, s) && Legal(s, es) && id in Exec(s, es).l.stages
    ensures HasOrigin(es, Exec(s, es).l.stages[id])
  {
    RunSourced(l, s, es);
  }

  /** A sweep finalized at `h` may spend `kid`, confirmed at `conf`: the lock it was incubated with has passed. */
  predicate SpendableAt(kid: Kid, conf: nat, tx: Tx, h: nat) {
    && Known(kid.witnessType)
    && (Csv(kid.witnessType) && kid.blocksToMaturity > 0 ==> conf + kid.blocksToMaturity <= h)
    && (Cltv(kid.witnessType) ==> kid.absoluteMaturity <= h && tx.lockTime == h)
  }

  ghost predicate SpentRipe(es: seq<Event>, tx: Tx, h: nat, op: OutPoint) {
    exists k0, conf ::
      Brought(es, k0) && k0.op == op && ConfSeen(es, IdOf(k0), conf) && SpendableAt(k0, conf, tx, h)
  }

  /**
    In every run each outpoint that a sweep spends is that of an incubated output which was reported
    confirmed, and whose own lock, counted from that report, has passed.
  */
  lemma SweptOutputsWereIncubated(l: Ledger, s: Sys, es: seq<Event>, h: nat, op: OutPoint)
    requires Started(l, s) && Legal(s, es) && AllWellFed(s, es)
    requires h in Exec(s, es).finalized && Exec(s, es).finalized[h].Some?
    requires Spends(Exec(s, es).finalized[h].value, op)
    ensures SpentRipe(es, Exec(s, es).finalized[h].value, h, op)
  {
    RunSourced(l, s, es);
    NothingSweptEarly(l, s, es);
    var s' := Exec(s, es);
    var tx := s'.finalized[h].value;
    var i :| 0 <= i < |tx.inputs| && tx.inputs[i].prev == op;
    assert UnlockedBy(tx.inputs[i], tx.lockTime, s'.classes[h], h);
    var j :| 0 <= j < |s'.classes[h]| && InputUnlocked(tx.inputs[i], tx.lockTime, s'.classes[h][j], h);
    var kid := s'.classes[h][j];
    assert Grown(es, kid);
    var k0, conf :| GrownFrom(es, kid, k0, conf);
    assert SpendableAt(k0, conf, tx, h);
  }

  /****** Payments ******/

  /** Event `i` finalized `tx` for `h`: it spends what could be swept then and pays the sum less the fee. */
  ghost predicate PaysAt(s: Sys, es: seq<Event>, i: nat, h: nat, tx: Tx)
    requires i < |es|
  {
    && es[i].Finalize? && es[i].height == h
    && var l := Exec(s, es[..i]).l;
       && tx.value + es[i].fee == Sum(Sweepable(l, h), Amount(l)) && tx.script == es[i].script
       && Prevouts(tx) == set id | id in Sweepable(l, h) :: id.op
  }

  lemma FinalizePays(l: Ledger, h: nat, kids: seq<Kid>, fee: int, script: seq<byte>)
    requires ListsClass(l, h, kids)
    ensures var tx := SweepOf(kids, h, fee, script);
            && tx.value + fee == Sum(Sweepable(l, h), Amount(l)) && tx.script == script
            && Prevouts(tx) == set id | id in Sweepable(l, h) :: id.op
  {
    SweepPaysClass(l, h, kids, fee, script);
    SweepSpendsClass(l, h, kids, fee, script);
    assert KnownOps(l, h) == set id | id in Sweepable(l, h) :: id.op;
  }

  ghost predicate Paid(s: Sys, es: seq<Event>, h: nat, tx: Tx) {
    exists i: nat :: i < |es| && PaysAt(s, es, i, h, tx)
  }

  lemma PaidStays(s: Sys, es: seq<Event>, e: Event, h: nat, tx: Tx)
    requires Paid(s, es, h, tx)
    ensures Paid(s, es + [e], h, tx)
  {
    var i: nat :| i < |es| && PaysAt(s, es, i, h, tx);
    var all := es + [e];
    assert all[..i] == es[..i] && all[i] == es[i];
    assert PaysAt(s, all, i, h, tx);
  }

  /** In every run each sweep ever finalized spends all that could be swept at its height, for the sum less its fee. */
  lemma {:induction false} FinalizedSweepsPay(l: Ledger, s: Sys, es: seq<Event>, h: nat)
    requires Started(l, s) && Legal(s, es)
    requires h in Exec(s, es).finalized && Exec(s, es).finalized[h].Some?
    ensures Paid(s, es, h, Exec(s, es).finalized[h].value)
    decreases |es|
  {
    var rest, e := es[..|es| - 1], es[|es| - 1];
    assert es == rest + [e];
    RunSnoc(s, rest, e);
    var before := Exec(s, rest);
    if e.Finalize? && e.height == h {
      FinalizePays(before.l, h, e.kids, e.fee, e.script);
      assert es[..|rest|] == rest;
      assert PaysAt(s, es, |rest|, h, Exec(s, es).finalized[h].value);
    } else {
      assert before.finalized == Exec(s, es).finalized || e.Finalize?;
      FinalizedSweepsPay(l, s, rest, h);
      PaidStays(s, rest, e, h, before.finalized[h].value);
    }
  }

  /** And so does each sweep ever broadcast. */
  lemma PublishedSweepsPay(l: Ledger, s: Sys, es: seq<Event>, w: Sweep)
    requires Started(l, s) && Legal(s, es) && w in Exec(s, es).published
    ensures Paid(s, es, w.height, w.tx)
  {
    RunKeepsSweepInv(s, es);
    assert Recorded(Exec(s, es), w);
    FinalizedSweepsPay(l, s, es, w.height);
  }
}
