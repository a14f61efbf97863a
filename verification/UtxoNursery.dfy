/**
  The nursery object: its methods drive the store, and each call is a legal stretch of a run of
  the whole system, so what is proved of all runs holds of them.
*/
module UtxoNursery {
  import opened Chain
  import opened NurseryLedger
  import opened NurseryBuckets
  import opened NurseryStore
  import opened NurserySweep
  import opened NurseryRun
  import opened NurserySchedule
  import opened NurseryOrigins
  import opened HeightCursor

  /** How the wallet, the network and the notifier answer while one class is handled. */
  datatype Env = Env(
    fee: int, script: seq<byte>, signs: bool, publishes: bool, registers: bool, cribsSent: nat, confsRegistered: nat)

  datatype CommitResolution = CommitResolution(op: OutPoint, delay: nat, signDesc: SignDesc)

  datatype OutgoingHtlc =
    OutgoingHtlc(expiry: nat, timeoutTx: Option<Tx>, csvDelay: nat, claim: OutPoint, signDesc: SignDesc)

  datatype IncomingHtlc = IncomingHtlc(csvDelay: nat, claim: OutPoint, signDesc: SignDesc)

  /****** Building outputs ******/

  function MakeKid(op: OutPoint, chan: OutPoint, delay: nat, w: WitnessType, d: SignDesc, absolute: nat): Kid {
    Kid(d.output.value, op, chan, w == HtlcAcceptedSuccessSecondLevel || w == HtlcOfferedRemoteTimeout,
        delay, absolute, 0, w, d)
  }

  function MakeBaby(chan: OutPoint, r: OutgoingHtlc): Baby
    requires r.timeoutTx.Some?
  {
    Baby(r.expiry, r.timeoutTx.value, MakeKid(r.claim, chan, r.csvDelay, HtlcOfferedTimeoutSecondLevel, r.signDesc, 0))
  }

  /** Outputs of no value are not worth incubating. */
  function Worthy(kid: Kid): seq<Kid> {
    if kid.amount > 0 then [kid] else []
  }

  function CommitKids(chan: OutPoint, commit: Option<CommitResolution>): seq<Kid> {
    if commit.None? then []
    else Worthy(MakeKid(commit.value.op, chan, commit.value.delay, CommitmentTimeLock, commit.value.signDesc, 0))
  }

  function IncomingKids(chan: OutPoint, rs: seq<IncomingHtlc>): seq<Kid> {
    if rs == [] then []
    else
      var r := rs[|rs| - 1];
      IncomingKids(chan, rs[..|rs| - 1])
      + Worthy(MakeKid(r.claim, chan, r.csvDelay, HtlcAcceptedSuccessSecondLevel, r.signDesc, 0))
  }

  function DirectKids(chan: OutPoint, rs: seq<OutgoingHtlc>): seq<Kid> {
    if rs == [] then []
    else
      var r := rs[|rs| - 1];
      DirectKids(chan, rs[..|rs| - 1])
      + (if r.timeoutTx.Some? then [] else [MakeKid(r.claim, chan, 0, HtlcOfferedRemoteTimeout, r.signDesc, r.expiry)])
  }

  function OutgoingBabies(chan: OutPoint, rs: seq<OutgoingHtlc>): seq<Baby> {
    if rs == [] then []
    else
      var r := rs[|rs| - 1];
      OutgoingBabies(chan, rs[..|rs| - 1])
      + (if r.timeoutTx.Some? && r.signDesc.output.value > 0 then [MakeBaby(chan, r)] else [])
  }

  function BuiltKids(chan: OutPoint, commit: Option<CommitResolution>, incoming: seq<IncomingHtlc>,
                     outgoing: seq<OutgoingHtlc>): seq<Kid> {
    CommitKids(chan, commit) + IncomingKids(chan, incoming) + DirectKids(chan, outgoing)
  }

  /****** What is built, field by field ******/

  predicate IsKid(kid: Kid, chan: OutPoint, op: OutPoint, d: SignDesc, w: WitnessType, delay: nat, absolute: nat) {
    && kid.chan == chan && kid.op == op && kid.signDesc == d && kid.amount == d.output.value
    && kid.witnessType == w && kid.blocksToMaturity == delay && kid.absoluteMaturity == absolute
    && kid.confHeight == 0
    && (kid.isHtlc <==> w == HtlcAcceptedSuccessSecondLevel || w == HtlcOfferedRemoteTimeout)
  }

  /** Our own output of the commitment: its delay after confirmation. */
  predicate FromCommit(chan: OutPoint, r: CommitResolution, kid: Kid) {
    IsKid(kid, chan, r.op, r.signDesc, CommitmentTimeLock, r.delay, 0)
  }

  /** An incoming HTLC at its second level: its own delay. */
  predicate FromIncoming(chan: OutPoint, r: IncomingHtlc, kid: Kid) {
    IsKid(kid, chan, r.claim, r.signDesc, HtlcAcceptedSuccessSecondLevel, r.csvDelay, 0)
  }

  /** An outgoing HTLC on the remote commitment: no delay, and its expiry as absolute lock. */
  predicate FromDirect(chan: OutPoint, r: OutgoingHtlc, kid: Kid) {
    IsKid(kid, chan, r.claim, r.signDesc, HtlcOfferedRemoteTimeout, 0, r.expiry)
  }

  /** An outgoing HTLC on our commitment: its timeout transaction at its expiry, then its delay. */
  predicate FromOutgoing(chan: OutPoint, r: OutgoingHtlc, baby: Baby) {
    && baby.expiry == r.expiry && r.timeoutTx == Some(baby.timeoutTx)
    && IsKid(baby.kid, chan, r.claim, r.signDesc, HtlcOfferedTimeoutSecondLevel, r.csvDelay, 0)
  }

  predicate IsPaying(r: IncomingHtlc) {
    r.signDesc.output.value > 0
  }

  predicate IsDirect(r: OutgoingHtlc) {
    r.timeoutTx.None?
  }

  predicate IsTwoStage(r: OutgoingHtlc) {
    r.timeoutTx.Some? && r.signDesc.output.value > 0
  }

  /** `ks` holds one element for each of `rs` that is kept, in order, and nothing else. */
  ghost predicate OneEach<R, K>(chan: OutPoint, rs: seq<R>, keep: R -> bool, from: (OutPoint, R, K) -> bool,
                                ks: seq<K>)
    decreases |rs|
  {
    if rs == [] then ks == []
    else
      var n := |rs| - 1;
      if !keep(rs[n]) then OneEach(chan, rs[..n], keep, from, ks)
      else
        && ks != [] && from(chan, rs[n], ks[|ks| - 1])
        && OneEach(chan, rs[..n], keep, from, ks[..|ks| - 1])
  }

  ghost predicate DirectFrom(chan: OutPoint, outgoing: seq<OutgoingHtlc>, kids: seq<Kid>) {
    OneEach(chan, outgoing, IsDirect, FromDirect, kids)
  }

  ghost predicate IncomingFrom(chan: OutPoint, incoming: seq<IncomingHtlc>, kids: seq<Kid>) {
    OneEach(chan, incoming, IsPaying, FromIncoming, kids)
  }

  ghost predicate BabiesFrom(chan: OutPoint, outgoing: seq<OutgoingHtlc>, babies: seq<Baby>) {
    OneEach(chan, outgoing, IsTwoStage, FromOutgoing, babies)
  }

  predicate CommitFrom(chan: OutPoint, commit: Option<CommitResolution>, kids: seq<Kid>) {
    if commit.Some? && commit.value.signDesc.output.value > 0
    then |kids| == 1 && FromCommit(chan, commit.value, kids[0]) else kids == []
  }

  /** The kids are one for the commitment, one per incoming HTLC, both if of positive value, and one per direct HTLC. */
  ghost predicate KidsFrom(chan: OutPoint, commit: Option<CommitResolution>, incoming: seq<IncomingHtlc>,
                           outgoing: seq<OutgoingHtlc>, kids: seq<Kid>) {
    exists i: nat, j: nat :: i <= j <= |kids| && SplitAt(chan, commit, incoming, outgoing, kids, i, j)
  }

  ghost predicate SplitAt(chan: OutPoint, commit: Option<CommitResolution>, incoming: seq<IncomingHtlc>,
                          outgoing: seq<OutgoingHtlc>, kids: seq<Kid>, i: nat, j: nat)
    requires i <= j <= |kids|
  {
    && CommitFrom(chan, commit, kids[..i]) && IncomingFrom(chan, incoming, kids[i..j])
    && DirectFrom(chan, outgoing, kids[j..])
  }

  lemma {:induction false} IncomingAsGiven(chan: OutPoint, rs: seq<IncomingHtlc>)
    ensures IncomingFrom(chan, rs, IncomingKids(chan, rs))
    decreases |rs|
  {
    if rs != [] {
      var n := |rs| - 1;
      IncomingAsGiven(chan, rs[..n]);
      var before, all := IncomingKids(chan, rs[..n]), IncomingKids(chan, rs);
      if rs[n].signDesc.output.value > 0 {
        assert all[..|all| - 1] == before;
      } else {
        assert all == before;
      }
    }
  }

  lemma {:induction false} DirectAsGiven(chan: OutPoint, rs: seq<OutgoingHtlc>)
    ensures DirectFrom(chan, rs, DirectKids(chan, rs))
    decreases |rs|
  {
    if rs != [] {
      var n := |rs| - 1;
      DirectAsGiven(chan, rs[..n]);
      var before, all := DirectKids(chan, rs[..n]), DirectKids(chan, rs);
      if rs[n].timeoutTx.None? {
        assert all[..|all| - 1] == before;
      } else {
        assert all == before;
      }
    }
  }

  lemma {:induction false} BabiesAsGiven(chan: OutPoint, rs: seq<OutgoingHtlc>)
    ensures BabiesFrom(chan, rs, OutgoingBabies(chan, rs))
    decreases |rs|
  {
    if rs != [] {
      var n := |rs| - 1;
      BabiesAsGiven(chan, rs[..n]);
      var before, all := OutgoingBabies(chan, rs[..n]), OutgoingBabies(chan, rs);
      if rs[n].timeoutTx.Some? && rs[n].signDesc.output.value > 0 {
        assert all[..|all| - 1] == before;
      } else {
        assert all == before;
      }
    }
  }

  /** Exactly the outputs of the resolutions are built, each with its own outpoint, value, delay and lock. */
  lemma BuiltAsGiven(chan: OutPoint, commit: Option<CommitResolution>, incoming: seq<IncomingHtlc>,
                     outgoing: seq<OutgoingHtlc>)
    ensures KidsFrom(chan, commit, incoming, outgoing, BuiltKids(chan, commit, incoming, outgoing))
    ensures BabiesFrom(chan, outgoing, OutgoingBabies(chan, outgoing))
  {
    IncomingAsGiven(chan, incoming);
    DirectAsGiven(chan, outgoing);
    BabiesAsGiven(chan, outgoing);
    var c, inc, dir := CommitKids(chan, commit), IncomingKids(chan, incoming), DirectKids(chan, outgoing);
    var kids := BuiltKids(chan, commit, incoming, outgoing);
    var i, j := |c|, |c| + |inc|;
    assert kids[..i] == c && kids[i..j] == inc && kids[j..] == dir;
    assert SplitAt(chan, commit, incoming, outgoing, kids, i, j);
  }

  /** Every element comes from a kept one. */
  lemma {:induction false} OneEachBack<R, K>(chan: OutPoint, rs: seq<R>, keep: R -> bool,
                                                from: (OutPoint, R, K) -> bool, ks: seq<K>, k: K)
    requires OneEach(chan, rs, keep, from, ks) && k in ks
    ensures exists r <- rs :: keep(r) && from(chan, r, k)
    decreases |rs|
  {
    var n := |rs| - 1;
    var rest := if keep(rs[n]) then ks[..|ks| - 1] else ks;
    if k in rest {
      OneEachBack(chan, rs[..n], keep, from, rest, k);
      var r :| r in rs[..n] && keep(r) && from(chan, r, k);
      assert r in rs;
    } else {
      assert k == ks[|ks| - 1] && rs[n] in rs;
    }
  }

  /** Every kept one gives an element. */
  lemma {:induction false} OneEachForth<R, K>(chan: OutPoint, rs: seq<R>, keep: R -> bool,
                                                 from: (OutPoint, R, K) -> bool, ks: seq<K>, r: R)
    requires OneEach(chan, rs, keep, from, ks) && r in rs && keep(r)
    ensures exists k <- ks :: from(chan, r, k)
    decreases |rs|
  {
    var n := |rs| - 1;
    var rest := if keep(rs[n]) then ks[..|ks| - 1] else ks;
    if r in rs[..n] {
      OneEachForth(chan, rs[..n], keep, from, rest, r);
      var k :| k in rest && from(chan, r, k);
      assert k in ks;
    } else {
      assert r == rs[n] && ks[|ks| - 1] in ks;
    }
  }

  /** Every kid that is built stands for one of the resolutions. */
  lemma KidsStandFor(chan: OutPoint, commit: Option<CommitResolution>, incoming: seq<IncomingHtlc>,
                     outgoing: seq<OutgoingHtlc>, kids: seq<Kid>, kid: Kid)
    requires KidsFrom(chan, commit, incoming, outgoing, kids) && kid in kids
    ensures || (commit.Some? && FromCommit(chan, commit.value, kid))
            || (exists r <- incoming :: FromIncoming(chan, r, kid))
            || (exists r <- outgoing :: r.timeoutTx.None? && FromDirect(chan, r, kid))
  {
    var i: nat, j: nat :| i <= j <= |kids| && SplitAt(chan, commit, incoming, outgoing, kids, i, j);
    assert kids == kids[..i] + kids[i..j] + kids[j..];
    if kid in kids[i..j] {
      OneEachBack(chan, incoming, IsPaying, FromIncoming, kids[i..j], kid);
    } else if kid in kids[j..] {
      OneEachBack(chan, outgoing, IsDirect, FromDirect, kids[j..], kid);
    }
  }

  /** Every direct HTLC has its kid, with its expiry as lock. */
  lemma DirectHtlcsAreBuilt(chan: OutPoint, commit: Option<CommitResolution>, incoming: seq<IncomingHtlc>,
                            outgoing: seq<OutgoingHtlc>, kids: seq<Kid>, r: OutgoingHtlc)
    requires KidsFrom(chan, commit, incoming, outgoing, kids) && r in outgoing && r.timeoutTx.None?
    ensures exists kid <- kids :: FromDirect(chan, r, kid)
  {
    var i: nat, j: nat :| i <= j <= |kids| && SplitAt(chan, commit, incoming, outgoing, kids, i, j);
    OneEachForth(chan, outgoing, IsDirect, FromDirect, kids[j..], r);
    var kid :| kid in kids[j..] && FromDirect(chan, r, kid);
    assert kid in kids;
  }

  /** No other resolution of the close claims the outpoint of `r`. */
  ghost predicate ClaimedOnce(commit: Option<CommitResolution>, incoming: seq<IncomingHtlc>,
                              outgoing: seq<OutgoingHtlc>, r: OutgoingHtlc) {
    && (commit.Some? ==> commit.value.op != r.claim)
    && (forall x <- incoming :: x.claim != r.claim)
    && (forall x <- outgoing :: x.claim == r.claim ==> x == r)
  }

  /** No other event of the run incubates the outpoint. */
  ghost predicate BroughtOnlyBy(es: seq<Event>, i: nat, op: OutPoint) {
    forall k, kid | 0 <= k < |es| && k != i && BroughtBy(es[k], kid) :: kid.op != op
  }

  lemma BabiesClaimOthers(chan: OutPoint, outgoing: seq<OutgoingHtlc>, babies: seq<Baby>, r: OutgoingHtlc)
    requires BabiesFrom(chan, outgoing, babies) && r.timeoutTx.None?
    requires forall x <- outgoing :: x.claim == r.claim ==> x == r
    ensures forall baby <- babies :: baby.kid.op != r.claim
  {
    forall baby | baby in babies
      ensures baby.kid.op != r.claim
    {
      OneEachBack(chan, outgoing, IsTwoStage, FromOutgoing, babies, baby);
    }
  }

  /** Whatever a force close incubates at the outpoint of a direct HTLC is that HTLC. */
  lemma BroughtIsDirect(chan: OutPoint, commit: Option<CommitResolution>, incoming: seq<IncomingHtlc>,
                        outgoing: seq<OutgoingHtlc>, r: OutgoingHtlc, kid: Kid)
    requires BroughtBy(Incubation(chan, commit, incoming, outgoing), kid) && kid.op == r.claim
    requires r.timeoutTx.None? && ClaimedOnce(commit, incoming, outgoing, r)
    ensures FromDirect(chan, r, kid)
  {
    var e := Incubation(chan, commit, incoming, outgoing);
    BuiltAsGiven(chan, commit, incoming, outgoing);
    BabiesClaimOthers(chan, outgoing, e.babies, r);
    KidsStandFor(chan, commit, incoming, outgoing, e.kids, kid);
  }

  /**
    In every run: a sweep that spends an HTLC of the remote commitment, incubated by a force close,
    is never finalized below the expiry of that HTLC, and its lock time is its height.
  */
  lemma DirectHtlcsWaitForExpiry(l: Ledger, s: Sys, es: seq<Event>, h: nat, i: nat, chan: OutPoint,
                                 commit: Option<CommitResolution>, incoming: seq<IncomingHtlc>,
                                 outgoing: seq<OutgoingHtlc>, r: OutgoingHtlc)
    requires Started(l, s) && Legal(s, es) && AllWellFed(s, es)
    requires i < |es| && es[i] == Incubation(chan, commit, incoming, outgoing)
    requires r in outgoing && r.timeoutTx.None? && ClaimedOnce(commit, incoming, outgoing, r)
    requires BroughtOnlyBy(es, i, r.claim)
    requires h in Exec(s, es).finalized && Exec(s, es).finalized[h].Some?
    requires Spends(Exec(s, es).finalized[h].value, r.claim)
    ensures r.expiry <= h == Exec(s, es).finalized[h].value.lockTime
  {
    var tx := Exec(s, es).finalized[h].value;
    SweptOutputsWereIncubated(l, s, es, h, r.claim);
    var k0, conf :|
      Brought(es, k0) && k0.op == r.claim && ConfSeen(es, IdOf(k0), conf) && SpendableAt(k0, conf, tx, h);
    var k :| 0 <= k < |es| && BroughtBy(es[k], k0);
    assert k == i;
    BroughtIsDirect(chan, commit, incoming, outgoing, r, k0);
  }

  predicate Fresh(kid: Kid, chan: OutPoint) {
    kid.chan == chan && WellBuilt(kid) && Known(kid.witnessType) && kid.confHeight == 0
  }

  lemma {:induction false} IncomingFresh(chan: OutPoint, rs: seq<IncomingHtlc>)
    ensures forall kid <- IncomingKids(chan, rs) :: Fresh(kid, chan)
  {
    if rs != [] {
      IncomingFresh(chan, rs[..|rs| - 1]);
    }
  }

  lemma {:induction false} DirectFresh(chan: OutPoint, rs: seq<OutgoingHtlc>)
    ensures forall kid <- DirectKids(chan, rs) :: Fresh(kid, chan)
  {
    if rs != [] {
      DirectFresh(chan, rs[..|rs| - 1]);
    }
  }

  lemma {:induction false} BabiesFresh(chan: OutPoint, rs: seq<OutgoingHtlc>)
    ensures forall baby <- OutgoingBabies(chan, rs) :: Fresh(baby.kid, chan) && Csv(baby.kid.witnessType)
  {
    if rs != [] {
      BabiesFresh(chan, rs[..|rs| - 1]);
    }
  }

  /** Everything that is incubated can be swept by a class sweep later on. */
  lemma BuiltOutputs(chan: OutPoint, commit: Option<CommitResolution>, incoming: seq<IncomingHtlc>,
                     outgoing: seq<OutgoingHtlc>)
    ensures forall kid <- BuiltKids(chan, commit, incoming, outgoing) :: Fresh(kid, chan)
    ensures forall baby <- OutgoingBabies(chan, outgoing) :: Fresh(baby.kid, chan) && Csv(baby.kid.witnessType)
  {
    IncomingFresh(chan, incoming);
    DirectFresh(chan, outgoing);
    BabiesFresh(chan, outgoing);
  }

  /** None of the outpoints belongs to an output of another channel. */
  ghost predicate NoneForeign(l: Ledger, kids: seq<Kid>, babies: seq<Baby>) {
    && (forall kid <- kids :: OwnOutpoint(l, kid))
    && (forall baby <- babies :: OwnOutpoint(l, baby.kid))
  }

  lemma {:induction false} PreschoolsAddTo(l: Ledger, kids: seq<Kid>, chan: OutPoint)
    requires forall kid <- kids :: kid.chan == chan
    ensures forall id <- EnterPreschools(l, kids).stages :: id in l.stages || id.chan == chan
    decreases |kids|
  {
    if kids != [] {
      PreschoolsAddTo(l, kids[..|kids| - 1], chan);
      assert kids[|kids| - 1] in kids;
    }
  }

  lemma {:induction false} CribsAddTo(l: Ledger, babies: seq<Baby>, chan: OutPoint)
    requires forall baby <- babies :: baby.kid.chan == chan
    ensures forall id <- EnterCribs(l, babies).stages :: id in l.stages || id.chan == chan
    decreases |babies|
  {
    if babies != [] {
      CribsAddTo(l, babies[..|babies| - 1], chan);
      assert babies[|babies| - 1] in babies;
    }
  }

  lemma KidsAreOwned(l: Ledger, kids: seq<Kid>, chan: OutPoint)
    requires forall kid <- kids :: Fresh(kid, chan) && OwnOutpoint(l, kid)
    ensures KidsOwned(l, kids)
  {
    forall i | 0 <= i < |kids|
      ensures WellBuilt(kids[i]) && OwnOutpoint(EnterPreschools(l, kids[..i]), kids[i])
    {
      assert kids[i] in kids && forall kid <- kids[..i] :: kid in kids;
      PreschoolsAddTo(l, kids[..i], chan);
    }
  }

  lemma BabiesAreOwned(l: Ledger, babies: seq<Baby>, chan: OutPoint)
    requires forall baby <- babies ::
               Fresh(baby.kid, chan) && Csv(baby.kid.witnessType) && OwnOutpoint(l, baby.kid)
    ensures BabiesOwned(l, babies)
  {
    forall i | 0 <= i < |babies|
      ensures Csv(babies[i].kid.witnessType) && OwnOutpoint(EnterCribs(l, babies[..i]), babies[i].kid)
    {
      assert babies[i] in babies && forall baby <- babies[..i] :: baby in babies;
      CribsAddTo(l, babies[..i], chan);
    }
  }

  /** What a force close builds is fit for incubation unless an outpoint belongs to another channel. */
  lemma BuiltOwned(l: Ledger, chan: OutPoint, commit: Option<CommitResolution>, incoming: seq<IncomingHtlc>,
                   outgoing: seq<OutgoingHtlc>)
    requires NoneForeign(l, BuiltKids(chan, commit, incoming, outgoing), OutgoingBabies(chan, outgoing))
    ensures WellOwned(l, BuiltKids(chan, commit, incoming, outgoing), OutgoingBabies(chan, outgoing))
  {
    var kids, babies := BuiltKids(chan, commit, incoming, outgoing), OutgoingBabies(chan, outgoing);
    BuiltOutputs(chan, commit, incoming, outgoing);
    KidsAreOwned(l, kids, chan);
    PreschoolsAddTo(l, kids, chan);
    BabiesAreOwned(EnterPreschools(l, kids), babies, chan);
  }

  function Incubation(chan: OutPoint, commit: Option<CommitResolution>, incoming: seq<IncomingHtlc>,
                      outgoing: seq<OutgoingHtlc>): Event {
    NurseryRun.IncubateOutputs(BuiltKids(chan, commit, incoming, outgoing), OutgoingBabies(chan, outgoing))
  }

  lemma IncubationLeads(s: Sys, chan: OutPoint, commit: Option<CommitResolution>, incoming: seq<IncomingHtlc>,
                        outgoing: seq<OutgoingHtlc>)
    requires s.pc.Ready?
    ensures var e := Incubation(chan, commit, incoming, outgoing);
            && (MayIncubate(s.l, e.kids, e.babies) ==> Leads(s, [e], Next(s, e)))
            && (NoneForeign(s.l, e.kids, e.babies) ==> Owned(s, e) && Disciplined(s, e))
  {
    var e := Incubation(chan, commit, incoming, outgoing);
    RunOne(s, e, []);
    assert [e] + [] == [e];
    BuiltOutputs(chan, commit, incoming, outgoing);
    if NoneForeign(s.l, e.kids, e.babies) {
      BuiltOwned(s.l, chan, commit, incoming, outgoing);
    }
  }

  /****** Runs ******/

  function ConfirmedBaby(baby: Baby, confHeight: nat): Baby {
    baby.(kid := Confirmed(baby.kid, confHeight))
  }

  predicate IsAt(l: Ledger, s: Stage) {
    IdOf(KidOf(s)) in l.stages && l.stages[IdOf(KidOf(s))] == s
  }

  /** `es` takes the system from `s` to `s'`. */
  ghost predicate Leads(s: Sys, es: seq<Event>, s': Sys) {
    Legal(s, es) && Exec(s, es) == s'
  }

  lemma LeadsOn(s: Sys, es: seq<Event>, s': Sys, e: Event)
    requires Leads(s, es, s') && Enabled(s', e)
    ensures Leads(s, es + [e], Next(s', e))
  {
    RunSnoc(s, es, e);
  }

  /** A new height is finalized, an old one is replayed. */
  predicate Opens(s: Sys, h: nat, env: Env, e: Event) {
    if h > s.l.lastFinalized then e.Finalize? && e.height == h && e.fee == env.fee && e.script == env.script
    else e == Replay(h)
  }

  /** What one call of graduateClass does to the system. */
  predicate Graduation(s: Sys, h: nat, env: Env, es: seq<Event>, ok: bool) {
    if es == [] then !ok
    else
      && Opens(s, h, env, es[0])
      && if ok then es[1..] == [Publish, MarkGraduated] else es[1..] == [Abort] || es[1..] == [Publish, Abort]
  }

  lemma GraduationIsConsecutive(s: Sys, h: nat, env: Env, es: seq<Event>)
    requires Graduation(s, h, env, es, true) && h == s.l.lastGraduated + 1
    ensures AllConsecutive(s, es)
  {
    var s1 := Next(s, es[0]);
    assert es[1..][1..] == [MarkGraduated] && [MarkGraduated][1..] == [];
    assert AllConsecutive(Next(s1, Publish), [MarkGraduated]);
  }

  lemma GraduationFollows(s: Sys, h: nat, env: Env)
    requires h == s.l.lastGraduated + 1
    ensures forall es | Graduation(s, h, env, es, true) :: AllConsecutive(s, es)
  {
    forall es | Graduation(s, h, env, es, true)
      ensures AllConsecutive(s, es)
    {
      GraduationIsConsecutive(s, h, env, es);
    }
  }

  /** Only heights with scheduled outputs have a sweep or expiring cribs. */
  lemma OnlyScheduled(l: Ledger, h: nat)
    requires Coherent(l)
    ensures h in l.finalTxs ==> Scheduled(l, h) != {}
    ensures forall id <- l.stages | l.stages[id].Crib? && l.stages[id].baby.expiry == h :: id in Scheduled(l, h)
  {
    if h in l.finalTxs {
      var id :| id in Class(l, h);
      assert id in Scheduled(l, h);
    }
  }

  lemma PublishLeads(s: Sys)
    requires s.pc.Sweeping?
    ensures Leads(s, [Publish, MarkGraduated], Next(Next(s, Publish), MarkGraduated))
    ensures Leads(s, [Publish, Abort], Next(Next(s, Publish), Abort))
  {
    RunOne(s, Publish, [MarkGraduated]);
    RunOne(Next(s, Publish), MarkGraduated, []);
    RunOne(s, Publish, [Abort]);
    RunOne(Next(s, Publish), Abort, []);
    assert [Publish] + [MarkGraduated] == [Publish, MarkGraduated] && [Publish] + [Abort] == [Publish, Abort];
    assert [MarkGraduated] + [] == [MarkGraduated] && [Abort] + [] == [Abort];
  }

  lemma AbortLeads(s: Sys)
    requires s.pc.Sweeping?
    ensures Leads(s, [Abort], Next(s, Abort))
  {
    RunOne(s, Abort, []);
    assert [Abort] + [] == [Abort];
  }

  /****** What is being watched ******/

  /** Every stored sweep and every expired crib output up to the last graduated height is watched. */
  ghost predicate Tended(l: Ledger, watched: set<Sweep>, timeouts: set<Id>) {
    && (forall h <- l.finalTxs | h <= l.lastGraduated :: Sweep(h, l.finalTxs[h]) in watched)
    && (forall id <- l.stages | l.stages[id].Crib? && l.stages[id].baby.expiry <= l.lastGraduated :: id in timeouts)
  }

  predicate IsConfirmation(e: Event) {
    e.SweepConf? || e.RemoveMature? || e.PreschoolConf? || e.TimeoutConf?
  }

  /** Confirmations and removals leave nothing unwatched. */
  lemma {:induction false} ConfirmationsKeepTended(s: Sys, es: seq<Event>, watched: set<Sweep>, timeouts: set<Id>)
    requires Tended(s.l, watched, timeouts) && forall e <- es :: IsConfirmation(e)
    ensures Tended(Exec(s, es).l, watched, timeouts)
    decreases |es|
  {
    if es != [] {
      assert IsConfirmation(es[0]);
      ConfirmationsKeepTended(Next(s, es[0]), es[1..], watched, timeouts);
    }
  }

  /** Incubation leaves nothing unwatched when its expired cribs have been sent out. */
  lemma IncubationKeepsTended(l: Ledger, kids: seq<Kid>, babies: seq<Baby>, best: nat, watched: set<Sweep>,
                              timeouts: set<Id>, timeouts': set<Id>)
    requires Tended(l, watched, timeouts) && timeouts <= timeouts' && best >= l.lastGraduated
    requires forall baby <- babies | baby.expiry <= best :: IdOf(baby.kid) in timeouts'
    ensures Tended(Incubate(l, kids, babies), watched, timeouts')
  {
    var l1, l' := EnterPreschools(l, kids), Incubate(l, kids, babies);
    IncubateOnlyAdds(l, kids, babies);
    IncubateKeepsTxs(l, kids);
    CribsKeepTxs(l1, babies);
    CribsFrom(l1, babies);
    forall id | id in l'.stages && l'.stages[id].Crib? && l'.stages[id].baby.expiry <= l'.lastGraduated
      ensures id in timeouts'
    {
      if id !in l1.stages {
        var baby :| baby in babies && IdOf(baby.kid) == id && l'.stages[id] == Crib(baby);
      }
    }
  }

  class Nursery {
    const store: Store
    var bestHeight: nat
    var watched: set<Sweep>    // waitForSweepConf goroutines
    var timeouts: set<Id>      // waitForTimeoutConf goroutines
    var preschools: set<Id>    // waitForPreschoolConf goroutines
    ghost var sys: Sys

    ghost predicate Valid()
      reads this, store
    {
      store.Valid() && sys.l == store.ledger && watched <= sys.waiters
    }

    /** The process starts on the disk of an earlier one, or on a new one; nothing is watched yet. */
    constructor (store: Store, ghost sys: Sys)
      requires store.Valid() && sys.l == store.ledger && sys.pc.Down?
      ensures this.store == store && this.sys == sys && Valid() && watched == {} && timeouts == {}
    {
      this.store, this.sys := store, sys;
      bestHeight, watched, timeouts, preschools := 0, {}, {}, {};
    }

    /** Broadcast the timeout transactions of some crib outputs and watch for their confirmation. */
    method SweepCribs(babies: seq<Baby>, env: Env) returns (ok: bool)
      modifies `timeouts
      ensures ok <==> env.cribsSent >= |babies|
      ensures ok ==> forall baby <- babies :: IdOf(baby.kid) in timeouts
      ensures old(timeouts) <= timeouts
    {
      for i := 0 to |babies|
        invariant i <= env.cribsSent
        invariant forall j | 0 <= j < i :: IdOf(babies[j].kid) in timeouts
        invariant old(timeouts) <= timeouts
      {
        if env.cribsSent <= i {
          return false;
        }
        timeouts := timeouts + {IdOf(babies[i].kid)};
      }
      ok := true;
    }

    /** Every crib output that expires at `h` is on its way. */
    ghost predicate CribsSwept(h: nat)
      reads this, store
    {
      forall id <- store.ledger.stages | store.ledger.stages[id].Crib? && store.ledger.stages[id].baby.expiry == h ::
        id in timeouts
    }

    /**
      Handle one block. The call is a stretch of a run: finalize or replay the height, broadcast
      its sweep, mark it graduated; or stop at the first failure.
    */
    method GraduateClass(h: nat, env: Env) returns (ok: bool, ghost es: seq<Event>)
      requires Valid() && sys.pc.Ready?
      modifies this, store
      ensures Valid() && sys.pc.Ready? && bestHeight == h
      ensures Leads(old(sys), es, sys) && Graduation(old(sys), h, env, es, ok)
      ensures ok ==> store.lastGraduated == h && CribsSwept(h) && SweepWatched(h)
      ensures !ok ==> store.lastGraduated == old(store.lastGraduated)
      ensures old(watched) <= watched && old(timeouts) <= timeouts
      ensures store.ledger.stages == old(store.ledger.stages)
      ensures forall g: nat | g != h :: TxOf(store.ledger, g) == TxOf(old(store.ledger), g)
    {
      bestHeight := h;
      ghost var open;
      var finalTx, babies;
      ok, finalTx, babies, open := OpenClass(h, env);
      if !ok {
        es := [];
        return;
      }
      ghost var rest;
      ok, rest := FinishClass(h, finalTx, babies, env);
      RunAppend(old(sys), [open], rest);
      RunSnoc(old(sys), [], open);
      es := [open] + rest;
      assert es[1..] == rest;
    }

    /** Broadcast an opened class and mark its height graduated; a failure on the way ends the attempt. */
    method FinishClass(h: nat, finalTx: Option<Tx>, babies: seq<Baby>, env: Env)
      returns (ok: bool, ghost es: seq<Event>)
      requires Valid() && sys.pc == Sweeping(h, finalTx) && ListsCribs(store.ledger, h, babies)
      requires TxOf(store.ledger, h) == finalTx
      modifies store, `sys, `watched, `timeouts
      ensures Valid() && sys.pc.Ready? && Leads(old(sys), es, sys)
      ensures if ok then es == [Publish, MarkGraduated] else es == [Abort] || es == [Publish, Abort]
      ensures ok ==> store.lastGraduated == h && CribsSwept(h) && SweepWatched(h)
      ensures !ok ==> store.lastGraduated == old(store.lastGraduated)
      ensures old(watched) <= watched && old(timeouts) <= timeouts
      ensures store.ledger == old(store.ledger).(lastGraduated := store.lastGraduated)
    {
      ok := finalTx.None? || env.publishes;
      if ok {
        PublishLeads(sys);
        ok := PublishClass(h, finalTx, babies, env);
        if ok {
          MarkClass(h);
          es := [Publish, MarkGraduated];
        } else {
          es, sys := [Publish, Abort], Next(sys, Abort);
        }
      } else {
        AbortLeads(sys);
        es, sys := [Abort], Next(sys, Abort);
      }
    }

    /** The sweep has gone out; watch for it and send out the cribs. The store is not touched. */
    method PublishClass(h: nat, finalTx: Option<Tx>, babies: seq<Baby>, env: Env) returns (ok: bool)
      requires Valid() && sys.pc == Sweeping(h, finalTx) && ListsCribs(store.ledger, h, babies)
      requires TxOf(store.ledger, h) == finalTx
      modifies `sys, `watched, `timeouts
      ensures Valid() && sys == Next(old(sys), Publish)
      ensures ok ==> CribsSwept(h) && SweepWatched(h)
      ensures old(watched) <= watched && old(timeouts) <= timeouts
    {
      sys := Next(sys, Publish);
      ok := WatchClass(h, finalTx, babies, env);
    }

    /** The last step: record the height as graduated. */
    method MarkClass(h: nat)
      requires Valid() && sys.pc == Swept(h)
      modifies store, `sys
      ensures Valid() && sys == Next(old(sys), MarkGraduated)
      ensures store.ledger == GraduateHeight(old(store.ledger), h) && store.lastGraduated == h
    {
      store.GraduateHeight(h);
      sys := Next(sys, MarkGraduated);
    }

    /** Load a class and, if its height is new, build and persist its sweep. */
    method OpenClass(h: nat, env: Env)
      returns (ok: bool, finalTx: Option<Tx>, babies: seq<Baby>, ghost open: Event)
      requires Valid() && sys.pc.Ready?
      modifies store, `sys
      ensures Valid() && ListsCribs(store.ledger, h, babies) && store.ledger.stages == old(store.ledger.stages)
      ensures store.lastGraduated == old(store.lastGraduated)
      ensures ok ==> Opens(old(sys), h, env, open) && Enabled(old(sys), open) && sys == Next(old(sys), open)
      ensures ok ==> sys.pc == Sweeping(h, finalTx) && TxOf(store.ledger, h) == finalTx
      ensures !ok ==> sys == old(sys)
      ensures forall g: nat | g != h :: TxOf(store.ledger, g) == TxOf(old(store.ledger), g)
    {
      var err, kids;
      err, finalTx, kids, babies := store.FetchClass(h);
      open := Replay(h);
      if h > store.lastFinalized {
        if |kids| > 0 {
          finalTx := CreateSweepTx(kids, h, env.fee, env.script);
          if finalTx.None? || !env.signs {
            ok := false;
            return;
          }
        }
        ClassIsScheduled(store.ledger, h, kids);
        open := Finalize(h, kids, env.fee, env.script);
        store.FinalizeKinder(h, finalTx);
      }
      ok, sys := true, Next(sys, open);
    }

    /** Watch for the confirmation of a class sweep, then send out the expiring cribs. */
    method WatchClass(h: nat, finalTx: Option<Tx>, babies: seq<Baby>, env: Env) returns (ok: bool)
      modifies `watched, `timeouts
      ensures old(timeouts) <= timeouts
      ensures watched == old(watched) || (finalTx.Some? && watched == old(watched) + {Sweep(h, finalTx.value)})
      ensures ok ==> (finalTx.Some? ==> Sweep(h, finalTx.value) in watched)
                     && forall baby <- babies :: IdOf(baby.kid) in timeouts
    {
      if finalTx.Some? {
        ok := RegisterSweepConf(h, finalTx.value, env);
        if !ok {
          return;
        }
      }
      ok := SweepCribs(babies, env);
    }

    method RegisterSweepConf(h: nat, tx: Tx, env: Env) returns (ok: bool)
      modifies `watched
      ensures ok == env.registers
      ensures watched == if ok then old(watched) + {Sweep(h, tx)} else old(watched)
    {
      ok := env.registers;
      if ok {
        watched := watched + {Sweep(h, tx)};
      }
    }

    /** The stored sweep of `h`, if any, is watched. */
    ghost predicate SweepWatched(h: nat)
      reads this, store
    {
      h in store.ledger.finalTxs ==> Sweep(h, store.ledger.finalTxs[h]) in watched
    }

    /** After a restart: watch an already graduated height again; nothing is signed. */
    method RegraduateClass(h: nat, env: Env) returns (ok: bool)
      requires Valid() && Rewatched(store.ledger) <= sys.waiters && h <= store.lastGraduated
      modifies `watched, `timeouts
      ensures Valid() && old(watched) <= watched && old(timeouts) <= timeouts
      ensures ok ==> SweepWatched(h) && CribsSwept(h)
    {
      var err, finalTx, kids, babies := store.FetchClass(h);
      if finalTx.Some? {
        ok := RegisterSweepConf(h, finalTx.value, env);
        if !ok {
          return;
        }
      }
      if |babies| == 0 {
        return true;
      }
      ok := SweepCribs(babies, env);
    }

    /** Watch all the heights of a list again. */
    method RegraduateAll(hs: seq<nat>, envs: nat -> Env) returns (ok: bool)
      requires Valid() && Rewatched(store.ledger) <= sys.waiters && forall h <- hs :: h <= store.lastGraduated
      modifies `watched, `timeouts
      ensures Valid() && old(watched) <= watched && old(timeouts) <= timeouts
      ensures ok ==> forall h <- hs :: SweepWatched(h) && CribsSwept(h)
    {
      for i := 0 to |hs|
        invariant Valid() && old(watched) <= watched && old(timeouts) <= timeouts
        invariant forall j | 0 <= j < i :: SweepWatched(hs[j]) && CribsSwept(hs[j])
      {
        assert hs[i] in hs;
        ok := RegraduateClass(hs[i], envs(hs[i]));
        if !ok {
          return;
        }
      }
      ok := true;
    }

    /** Everything due at or below the last graduated height is being watched. */
    ghost predicate AllWatched()
      reads this, store
    {
      forall h: nat | h <= store.lastGraduated :: SweepWatched(h) && CribsSwept(h)
    }

    lemma WatchedIff()
      requires Valid()
      ensures AllWatched() <==> Tended(store.ledger, watched, timeouts)
    {
      if AllWatched() {
        forall h | h in store.ledger.finalTxs && h <= store.lastGraduated
          ensures Sweep(h, store.ledger.finalTxs[h]) in watched
        {
          assert SweepWatched(h);
        }
        forall id | id in store.ledger.stages && store.ledger.stages[id].Crib?
                    && store.ledger.stages[id].baby.expiry <= store.lastGraduated
          ensures id in timeouts
        {
          assert CribsSwept(store.ledger.stages[id].baby.expiry);
        }
      }
    }

    /**
      Restart: watch every live height up to the last graduated one again, then catch up with the
      missed blocks one by one. On success the nursery stands at the best height, and every stored
      sweep and every expired crib output up to there is watched.
    */
    method ReloadClasses(best: nat, cursor: seq<seq<byte>>, envs: nat -> Env) returns (ok: bool, ghost es: seq<Event>)
      requires Valid() && sys.pc.Down? && watched == {} && timeouts == {}
      requires CursorOver(cursor, store.heights) && store.lastGraduated < 0x1_0000_0000
      modifies this, store
      ensures Valid() && sys.pc.Ready? && Leads(old(sys), es, sys)
      ensures ok ==> AllConsecutive(old(sys), es) && AllWatched()
      ensures ok ==> store.lastGraduated ==
                       if old(store.lastGraduated) == 0 || best <= old(store.lastGraduated)
                       then old(store.lastGraduated) else best
    {
      var lastGrad := store.lastGraduated;
      RunSnoc(sys, [], Restart);
      es, sys := [Restart], Next(sys, Restart);
      var active := HeightsBelowOrEqual(cursor, lastGrad, store.heights, store.ledger);
      ok := RegraduateAll(active, envs);
      if !ok {
        return;
      }
      LiveOnly(lastGrad, active);
      if lastGrad == 0 || best == lastGrad {
        return;
      }
      ghost var more;
      ok, more := CatchUp(best, envs);
      RunAppend(old(sys), es, more);
      es := es + more;
    }

    /** Graduate the missed heights one by one. */
    method CatchUp(best: nat, envs: nat -> Env) returns (ok: bool, ghost es: seq<Event>)
      requires Valid() && sys.pc.Ready? && AllWatched()
      modifies this, store
      ensures Valid() && sys.pc.Ready? && Leads(old(sys), es, sys)
      ensures ok ==> AllConsecutive(old(sys), es) && AllWatched()
      ensures ok ==> store.lastGraduated == if best <= old(store.lastGraduated) then old(store.lastGraduated) else best
    {
      ok, es := true, [];
      var first := store.lastGraduated + 1;
      for cur := first to if first <= best then best + 1 else first
        invariant Valid() && sys.pc.Ready? && Leads(old(sys), es, sys) && AllConsecutive(old(sys), es)
        invariant ok && AllWatched() && store.lastGraduated == cur - 1
      {
        ghost var before, more := es, [];
        ok, more := GraduateNext(envs(cur));
        es := before + more;
        RunAppend(old(sys), before, more);
        if !ok {
          return;
        }
      }
    }

    /** The next block: whether or not it succeeds, everything due stays watched. */
    method GraduateNext(env: Env) returns (ok: bool, ghost es: seq<Event>)
      requires Valid() && sys.pc.Ready? && AllWatched()
      modifies this, store
      ensures Valid() && sys.pc.Ready? && Leads(old(sys), es, sys)
      ensures ok ==> AllConsecutive(old(sys), es) && store.lastGraduated == old(store.lastGraduated) + 1
      ensures !ok ==> store.lastGraduated == old(store.lastGraduated)
      ensures AllWatched()
    {
      var h := store.lastGraduated + 1;
      GraduationFollows(sys, h, env);
      ok, es := GraduateClass(h, env);
      forall g: nat | g <= store.lastGraduated
        ensures SweepWatched(g) && CribsSwept(g)
      {
        if g < h {
          assert old(SweepWatched(g) && CribsSwept(g));
          assert TxOf(store.ledger, g) == TxOf(old(store.ledger), g);
        }
      }
    }

    /** Heights without live outputs have nothing to watch. */
    lemma LiveOnly(bound: nat, active: seq<nat>)
      requires Valid() && bound == store.lastGraduated
      requires forall h: nat :: h in active <==> h <= bound && Scheduled(store.ledger, h) != {}
      requires forall h <- active :: SweepWatched(h) && CribsSwept(h)
      ensures AllWatched()
    {
      forall h: nat | h <= bound
        ensures SweepWatched(h) && CribsSwept(h)
      {
        OnlyScheduled(store.ledger, h);
      }
    }

    /** A channel leaves the store if and only if all its outputs have graduated. */
    method CloseAndRemoveIfMature(c: OutPoint) returns (err: Option<StoreError>)
      requires Valid() && sys.pc.Ready?
      modifies store, `sys
      ensures Valid() && err.None? && sys == Next(old(sys), RemoveMature(c))
      ensures store.ledger == RemoveChannel(old(store.ledger), c) && Maturity(store.ledger, c) != Some(true)
      ensures SameMaturityBut(old(store.ledger), store.ledger, c)
    {
      RemovalKeepsMaturity(store.ledger, c);
      var mature;
      err, mature := store.IsMatureChannel(c);
      if err == Some(ContractNotFound) {
        err := None;
      } else if err.None? && mature {
        err := store.RemoveChannel(c);
      }
      sys := Next(sys, RemoveMature(c));
    }

    /**
      The sweep of a class has confirmed: its outputs graduate, and then the channels among them
      that have nothing left to incubate are removed.
    */
    method WaitForSweepConf(sweep: Sweep, kids: seq<Kid>) returns (ghost es: seq<Event>)
      requires Valid() && sys.pc.Ready? && sweep in watched
      modifies this, store
      ensures Valid() && sys.pc.Ready? && Leads(old(sys), es, sys)
      ensures es != [] && es[0] == SweepConf(sweep)
      ensures OnlyRemoves(es[1..], set kid | kid in kids :: kid.chan)
      ensures NoneMature(store.ledger, set kid | kid in kids :: kid.chan)
      ensures old(AllWatched()) ==> AllWatched()
    {
      WatchedIff();
      ConfirmSweep(sweep);
      var closes: set<OutPoint> := set kid | kid in kids :: kid.chan;
      ghost var more := RemoveMatureChannels(closes);
      es := [SweepConf(sweep)] + more;
      ConfThenRemoves(old(sys), sweep, more, sys, closes);
      if old(AllWatched()) {
        ConfirmationsKeepTended(old(sys), es, watched, timeouts);
      }
      WatchedIff();
    }

    method ConfirmSweep(sweep: Sweep)
      requires Valid() && sys.pc.Ready? && sweep in watched
      modifies store, `sys
      ensures Valid() && sys == Next(old(sys), SweepConf(sweep))
    {
      var err := store.GraduateKinder(sweep.height);
      sys := Next(sys, SweepConf(sweep));
    }

    /** Remove those of the channels that are mature. */
    method RemoveMatureChannels(chans: set<OutPoint>) returns (ghost es: seq<Event>)
      requires Valid() && sys.pc.Ready?
      modifies store, `sys
      ensures Valid() && sys.pc.Ready? && Leads(old(sys), es, sys)
      ensures OnlyRemoves(es, chans) && NoneMature(store.ledger, chans)
    {
      es := [];
      var todo := chans;
      ghost var done: set<OutPoint> := {};
      while todo != {}
        invariant Valid() && sys.pc.Ready? && Leads(old(sys), es, sys) && done + todo == chans
        invariant OnlyRemoves(es, chans) && NoneMature(store.ledger, done)
        decreases todo
      {
        var c :| c in todo;
        StillNoneMature(store.ledger, c, done);
        var err;
        err, es := RemoveOne(c, old(sys), es, chans);
        todo, done := todo - {c}, done + {c};
        if err.Some? {
          return;
        }
      }
      assert done == chans;
    }

    method RemoveOne(c: OutPoint, ghost s0: Sys, ghost es: seq<Event>, ghost chans: set<OutPoint>)
      returns (err: Option<StoreError>, ghost es': seq<Event>)
      requires Valid() && sys.pc.Ready? && Leads(s0, es, sys) && OnlyRemoves(es, chans) && c in chans
      modifies store, `sys
      ensures Valid() && sys.pc.Ready? && Leads(s0, es', sys) && OnlyRemoves(es', chans)
      ensures err.None? && store.ledger == RemoveChannel(old(store.ledger), c)
    {
      LeadsOn(s0, es, sys, RemoveMature(c));
      OneMoreRemove(es, c, chans);
      err := CloseAndRemoveIfMature(c);
      es' := es + [RemoveMature(c)];
    }

    /**
      The confirmation of a preschool output. Registrations are not deduplicated, so the record may
      have moved on by then; the store keeps its meaning exactly when it may still move.
    */
    method WaitForPreschoolConf(kid: Kid, confHeight: nat)
      requires Valid() && sys.pc.Ready?
      modifies store, `sys
      ensures PreschoolMovable(old(store.ledger), Confirmed(kid, confHeight)) ==>
                Valid() && sys == old(sys).(l := PreschoolToKinder(old(store.ledger), Confirmed(kid, confHeight)))
      ensures !PreschoolMovable(old(store.ledger), Confirmed(kid, confHeight)) ==>
                !exists l :: Represents(store.Snapshot(), l)
      ensures old(IsAt(store.ledger, Pscl(kid))) ==> Leads(old(sys), [PreschoolConf(IdOf(kid), confHeight)], sys)
      ensures PreschoolMovable(old(store.ledger), Confirmed(kid, confHeight)) && old(AllWatched()) ==> AllWatched()
    {
      WatchedIff();
      var kid' := kid.(confHeight := confHeight);
      store.PreschoolToKinder(kid');
      RunOne(sys, PreschoolConf(IdOf(kid), confHeight), []);
      assert [PreschoolConf(IdOf(kid), confHeight)] + [] == [PreschoolConf(IdOf(kid), confHeight)];
      sys := sys.(l := PreschoolToKinder(sys.l, kid'));
      if Valid() {
        WatchedIff();
      }
    }

    method WaitForTimeoutConf(baby: Baby, confHeight: nat)
      requires Valid() && sys.pc.Ready?
      modifies store, `sys
      ensures CribMovable(old(store.ledger), ConfirmedBaby(baby, confHeight)) ==>
                Valid() && sys == old(sys).(l := CribToKinder(old(store.ledger), ConfirmedBaby(baby, confHeight)))
      ensures !CribMovable(old(store.ledger), ConfirmedBaby(baby, confHeight)) ==>
                !exists l :: Represents(store.Snapshot(), l)
      ensures old(IsAt(store.ledger, Crib(baby))) ==> Leads(old(sys), [TimeoutConf(IdOf(baby.kid), confHeight)], sys)
      ensures CribMovable(old(store.ledger), ConfirmedBaby(baby, confHeight)) && old(AllWatched()) ==> AllWatched()
    {
      WatchedIff();
      var baby' := baby.(kid := baby.kid.(confHeight := confHeight));
      store.CribToKinder(baby');
      RunOne(sys, TimeoutConf(IdOf(baby.kid), confHeight), []);
      assert [TimeoutConf(IdOf(baby.kid), confHeight)] + [] == [TimeoutConf(IdOf(baby.kid), confHeight)];
      sys := sys.(l := CribToKinder(sys.l, baby'));
      if Valid() {
        WatchedIff();
      }
    }

    /**
      Build the outputs of a force close and hand them to the store; cribs that have expired go out
      at once, and the confirmations of preschool outputs are registered. When no outpoint belongs to
      another channel the call is a disciplined step.
    */
    method IncubateOutputs(chan: OutPoint, commit: Option<CommitResolution>, incoming: seq<IncomingHtlc>,
                           outgoing: seq<OutgoingHtlc>, best: nat, env: Env)
      returns (ok: bool)
      requires Valid() && sys.pc.Ready?
      modifies store, `sys, `timeouts, `preschools
      ensures var e := Incubation(chan, commit, incoming, outgoing);
              && Incubated(e, best, ok)
              && (NoneForeign(old(store.ledger), e.kids, e.babies) ==> Owned(old(sys), e) && Disciplined(old(sys), e))
      ensures KidsFrom(chan, commit, incoming, outgoing, BuiltKids(chan, commit, incoming, outgoing))
      ensures BabiesFrom(chan, outgoing, OutgoingBabies(chan, outgoing))
      ensures ok ==> Sent(OutgoingBabies(chan, outgoing), best)
      ensures ok ==> forall kid <- BuiltKids(chan, commit, incoming, outgoing) :: IdOf(kid) in preschools
      ensures old(timeouts) <= timeouts && old(preschools) <= preschools
    {
      var kids, babies := BuildOutputs(chan, commit, incoming, outgoing);
      IncubationLeads(sys, chan, commit, incoming, outgoing);
      ok := IncubateBuilt(kids, babies, best, env);
    }

    /**
      The incubation is a step of the run exactly when the ledger admits its outputs; if not, the
      buckets describe no ledger any more. A successful one leaves nothing unwatched.
    */
    twostate predicate Incubated(e: Event, best: nat, ok: bool)
      requires old(Valid()) && e.IncubateOutputs?
      reads this, store
    {
      && (MayIncubate(old(store.ledger), e.kids, e.babies) ==> Valid() && Leads(old(sys), [e], sys))
      && (!MayIncubate(old(store.ledger), e.kids, e.babies) ==> !exists l :: Represents(store.Snapshot(), l))
      && (MayIncubate(old(store.ledger), e.kids, e.babies) && old(AllWatched()) ==>
            ok && best >= old(store.lastGraduated) ==> AllWatched())
    }

    /** The same for outputs that have been built. */
    method IncubateBuilt(kids: seq<Kid>, babies: seq<Baby>, best: nat, env: Env) returns (ok: bool)
      requires Valid() && sys.pc.Ready?
      requires var e := NurseryRun.IncubateOutputs(kids, babies);
               MayIncubate(sys.l, kids, babies) ==> Leads(sys, [e], Next(sys, e))
      modifies store, `sys, `timeouts, `preschools
      ensures Incubated(NurseryRun.IncubateOutputs(kids, babies), best, ok)
      ensures ok ==> Sent(babies, best) && forall kid <- kids :: IdOf(kid) in preschools
      ensures old(timeouts) <= timeouts && old(preschools) <= preschools
    {
      WatchedIff();
      ghost var l, t := store.ledger, timeouts;
      FileOutputs(kids, babies);
      ok := RegisterIncubation(kids, babies, best, env);
      if MayIncubate(l, kids, babies) {
        WatchedIff();
        if ok && Tended(l, watched, t) && best >= l.lastGraduated {
          IncubationKeepsTended(l, kids, babies, best, watched, t, timeouts);
        }
      }
    }

    method FileOutputs(kids: seq<Kid>, babies: seq<Baby>)
      requires Valid() && sys.pc.Ready?
      modifies store, `sys
      ensures MayIncubate(old(store.ledger), kids, babies) ==>
                Valid() && sys == Next(old(sys), NurseryRun.IncubateOutputs(kids, babies))
      ensures !MayIncubate(old(store.ledger), kids, babies) ==> !exists l :: Represents(store.Snapshot(), l)
    {
      store.Incubate(kids, babies);
      sys := Next(sys, NurseryRun.IncubateOutputs(kids, babies));
    }

    /** Those of the cribs that have expired by `best` are on their way. */
    ghost predicate Sent(babies: seq<Baby>, best: nat)
      reads this
    {
      forall baby <- babies | baby.expiry <= best :: IdOf(baby.kid) in timeouts
    }

    /** Send out expired cribs, then register for the confirmation of each preschool output. */
    method RegisterIncubation(kids: seq<Kid>, babies: seq<Baby>, best: nat, env: Env) returns (ok: bool)
      modifies `timeouts, `preschools
      ensures ok ==> Sent(babies, best) && forall kid <- kids :: IdOf(kid) in preschools
      ensures old(timeouts) <= timeouts && old(preschools) <= preschools
    {
      ok := SweepExpired(babies, best, env);
      if !ok {
        return;
      }
      for i := 0 to |kids|
        invariant Sent(babies, best) && old(timeouts) <= timeouts && old(preschools) <= preschools
        invariant forall j | 0 <= j < i :: IdOf(kids[j]) in preschools
      {
        if env.confsRegistered <= i {
          return false;
        }
        preschools := preschools + {IdOf(kids[i])};
      }
    }

    /** Crib outputs that have expired before they could be filed are swept at once. */
    method SweepExpired(babies: seq<Baby>, best: nat, env: Env) returns (ok: bool)
      modifies `timeouts
      ensures ok ==> Sent(babies, best)
      ensures old(timeouts) <= timeouts
    {
      var expired: seq<Baby> := [];
      for i := 0 to |babies|
        invariant forall j | 0 <= j < i && babies[j].expiry <= best :: babies[j] in expired
      {
        if best >= babies[i].expiry {
          expired := expired + [babies[i]];
        }
      }
      ok := SweepCribs(expired, env);
    }

    /** The commitment output and the incoming HTLCs, without outputs of no value. */
    method BuildDelayed(chan: OutPoint, commit: Option<CommitResolution>, incoming: seq<IncomingHtlc>)
      returns (kids: seq<Kid>)
      ensures kids == CommitKids(chan, commit) + IncomingKids(chan, incoming)
      ensures var n := |CommitKids(chan, commit)|;
              CommitFrom(chan, commit, kids[..n]) && IncomingFrom(chan, incoming, kids[n..])
    {
      IncomingAsGiven(chan, incoming);
      kids := [];
      if commit.Some? {
        var self := MakeKid(commit.value.op, chan, commit.value.delay, CommitmentTimeLock, commit.value.signDesc, 0);
        if self.amount > 0 {
          kids := kids + [self];
        }
      }
      for i := 0 to |incoming|
        invariant kids == CommitKids(chan, commit) + IncomingKids(chan, incoming[..i])
      {
        assert incoming[..i + 1][..i] == incoming[..i];
        var kid := MakeKid(incoming[i].claim, chan, incoming[i].csvDelay, HtlcAcceptedSuccessSecondLevel,
                           incoming[i].signDesc, 0);
        if kid.amount > 0 {
          kids := kids + [kid];
        }
      }
      assert incoming[..|incoming|] == incoming;
      assert kids[..|CommitKids(chan, commit)|] == CommitKids(chan, commit);
      assert kids[|CommitKids(chan, commit)|..] == IncomingKids(chan, incoming);
    }

    method BuildOutputs(chan: OutPoint, commit: Option<CommitResolution>, incoming: seq<IncomingHtlc>,
                        outgoing: seq<OutgoingHtlc>)
      returns (kids: seq<Kid>, babies: seq<Baby>)
      ensures kids == BuiltKids(chan, commit, incoming, outgoing) && babies == OutgoingBabies(chan, outgoing)
      ensures KidsFrom(chan, commit, incoming, outgoing, kids) && BabiesFrom(chan, outgoing, babies)
    {
      BuiltAsGiven(chan, commit, incoming, outgoing);
      babies := [];
      kids := BuildDelayed(chan, commit, incoming);
      for i := 0 to |outgoing|
        invariant kids == CommitKids(chan, commit) + IncomingKids(chan, incoming) + DirectKids(chan, outgoing[..i])
        invariant babies == OutgoingBabies(chan, outgoing[..i])
      {
        assert outgoing[..i + 1][..i] == outgoing[..i];
        if outgoing[i].timeoutTx.Some? {
          var baby := MakeBaby(chan, outgoing[i]);
          if baby.kid.amount > 0 {
            babies := babies + [baby];
          }
          continue;
        }
        kids := kids + [MakeKid(outgoing[i].claim, chan, 0, HtlcOfferedRemoteTimeout, outgoing[i].signDesc,
                                outgoing[i].expiry)];
      }
      assert outgoing[..|outgoing|] == outgoing;
    }
  }

  /** Channels other than `c` are as mature as they were. */
  ghost predicate SameMaturityBut(l: Ledger, l': Ledger, c: OutPoint) {
    forall d | d != c :: Maturity(l', d) == Maturity(l, d)
  }

  /** None of the channels has only graduated outputs. */
  ghost predicate NoneMature(l: Ledger, chans: set<OutPoint>) {
    forall c <- chans :: Maturity(l, c) != Some(true)
  }

  ghost predicate OnlyRemoves(es: seq<Event>, chans: set<OutPoint>) {
    forall e <- es :: e.RemoveMature? && e.chan in chans
  }

  lemma ConfThenRemoves(s: Sys, sweep: Sweep, more: seq<Event>, s': Sys, chans: set<OutPoint>)
    requires Enabled(s, SweepConf(sweep)) && Leads(Next(s, SweepConf(sweep)), more, s') && OnlyRemoves(more, chans)
    ensures var es := [SweepConf(sweep)] + more;
            Leads(s, es, s') && es[1..] == more && forall e <- es :: IsConfirmation(e)
  {
    RunOne(s, SweepConf(sweep), more);
  }

  lemma OneMoreRemove(es: seq<Event>, c: OutPoint, chans: set<OutPoint>)
    requires OnlyRemoves(es, chans) && c in chans
    ensures OnlyRemoves(es + [RemoveMature(c)], chans)
  {
  }

  lemma StillNoneMature(l: Ledger, c: OutPoint, chans: set<OutPoint>)
    requires NoneMature(l, chans)
    ensures NoneMature(RemoveChannel(l, c), chans + {c})
  {
    RemovalKeepsMaturity(l, c);
  }

  /** Removing one channel does not make another one mature. */
  lemma RemovalKeepsMaturity(l: Ledger, c: OutPoint)
    ensures forall d :: Maturity(RemoveChannel(l, c), d) ==
                          if c == d && Maturity(l, c) == Some(true) then None else Maturity(l, d)
  {
    var l' := RemoveChannel(l, c);
    forall d
      ensures Maturity(l', d) == if c == d && Maturity(l, c) == Some(true) then None else Maturity(l, d)
    {
      if c == d && Maturity(l, c) == Some(true) {
        assert ChannelIds(l', d) == {};
      } else {
        assert ChannelIds(l', d) == ChannelIds(l, d);
      }
    }
  }
}
