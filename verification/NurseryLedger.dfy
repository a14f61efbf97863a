/**
  What the nursery tracks, without the database: one stage per output, the finalized sweep
  of each height, and the two height marks. Every store operation is one function here.
*/
module NurseryLedger {
  import opened Chain

  datatype Kid = Kid(
    amount: int,
    op: OutPoint,
    chan: OutPoint,
    isHtlc: bool,
    blocksToMaturity: nat,
    absoluteMaturity: nat,
    confHeight: nat,
    witnessType: WitnessType,
    signDesc: SignDesc)

  /** A two-stage output: a presigned timeout transaction that creates the kid. */
  datatype Baby = Baby(expiry: nat, timeoutTx: Tx, kid: Kid)

  datatype Id = Id(chan: OutPoint, op: OutPoint)

  function IdOf(kid: Kid): Id {
    Id(kid.chan, kid.op)
  }

  datatype Stage =
    | Crib(baby: Baby)
    | Pscl(kid: Kid)
    | Kndr(kid: Kid, height: nat)
    | Grad(kid: Kid)

  function KidOf(s: Stage): Kid {
    match s
    case Crib(baby) => baby.kid
    case Pscl(kid) => kid
    case Kndr(kid, _) => kid
    case Grad(kid) => kid
  }

  datatype Ledger = Ledger(
    stages: map<Id, Stage>,
    finalTxs: map<nat, Tx>,
    lastFinalized: nat,
    lastGraduated: nat)

  /** The height at which an output is filed in the height index. */
  function ScheduledAt(s: Stage): Option<nat> {
    match s
    case Crib(baby) => Some(baby.expiry)
    case Kndr(_, h) => Some(h)
    case _ => None
  }

  predicate KndrAt(l: Ledger, id: Id, h: nat) {
    id in l.stages && l.stages[id].Kndr? && l.stages[id].height == h
  }

  /** The kindergarten class of a height. */
  function Class(l: Ledger, h: nat): set<Id> {
    set id | id in l.stages && KndrAt(l, id, h)
  }

  /** Everything filed under a height. */
  function Scheduled(l: Ledger, h: nat): set<Id> {
    set id | id in l.stages && ScheduledAt(l.stages[id]) == Some(h)
  }

  predicate Csv(w: WitnessType) {
    w == CommitmentTimeLock || w == HtlcOfferedTimeoutSecondLevel || w == HtlcAcceptedSuccessSecondLevel
  }

  predicate Cltv(w: WitnessType) {
    w == HtlcOfferedRemoteTimeout
  }

  /** Witness types that createSweepTx knows how to spend; it skips all others. */
  predicate Known(w: WitnessType) {
    Csv(w) || Cltv(w)
  }

  /****** Operations ******/

  function EnterPreschool(l: Ledger, kid: Kid): Ledger {
    if IdOf(kid) in l.stages then l else l.(stages := l.stages[IdOf(kid) := Pscl(kid)])
  }

  function EnterCrib(l: Ledger, baby: Baby): Ledger {
    if IdOf(baby.kid) in l.stages then l else l.(stages := l.stages[IdOf(baby.kid) := Crib(baby)])
  }

  function EnterPreschools(l: Ledger, kids: seq<Kid>): Ledger
    decreases |kids|
  {
    if kids == [] then l
    else EnterPreschool(EnterPreschools(l, kids[..|kids| - 1]), kids[|kids| - 1])
  }

  function EnterCribs(l: Ledger, babies: seq<Baby>): Ledger
    decreases |babies|
  {
    if babies == [] then l
    else EnterCrib(EnterCribs(l, babies[..|babies| - 1]), babies[|babies| - 1])
  }

  function Incubate(l: Ledger, kids: seq<Kid>, babies: seq<Baby>): Ledger {
    EnterCribs(EnterPreschools(l, kids), babies)
  }

  predicate InCrib(l: Ledger, baby: Baby) {
    var id := IdOf(baby.kid);
    id in l.stages && l.stages[id].Crib? && l.stages[id].baby.expiry == baby.expiry
  }

  /** The moves that leave a meaningful store: out of the crib it was filed in, anew, or onto itself. */
  predicate CribMovable(l: Ledger, baby: Baby) {
    IdOf(baby.kid) !in l.stages || InCrib(l, baby) || KndrAt(l, IdOf(baby.kid), CribTarget(baby))
  }

  function CribTarget(baby: Baby): nat {
    baby.kid.confHeight + baby.kid.blocksToMaturity
  }

  function CribToKinder(l: Ledger, baby: Baby): Ledger {
    l.(stages := l.stages[IdOf(baby.kid) := Kndr(baby.kid, CribTarget(baby))])
  }

  predicate InPreschool(l: Ledger, kid: Kid) {
    IdOf(kid) in l.stages && l.stages[IdOf(kid)].Pscl?
  }

  /** Absolute lock when there is no relative one, otherwise confirmation plus delay. */
  function MaturityHeight(kid: Kid): nat {
    if kid.blocksToMaturity == 0 then kid.absoluteMaturity else kid.confHeight + kid.blocksToMaturity
  }

  /** A late registration is bumped to the first height that has not graduated. */
  function PreschoolTarget(l: Ledger, kid: Kid): nat {
    if MaturityHeight(kid) <= l.lastGraduated then l.lastGraduated + 1 else MaturityHeight(kid)
  }

  predicate PreschoolMovable(l: Ledger, kid: Kid) {
    IdOf(kid) !in l.stages || InPreschool(l, kid) || KndrAt(l, IdOf(kid), PreschoolTarget(l, kid))
  }

  function PreschoolToKinder(l: Ledger, kid: Kid): Ledger {
    l.(stages := l.stages[IdOf(kid) := Kndr(kid, PreschoolTarget(l, kid))])
  }

  function GraduateKinder(l: Ledger, h: nat): Ledger {
    l.(stages := map id | id in l.stages :: if KndrAt(l, id, h) then Grad(l.stages[id].kid) else l.stages[id],
       finalTxs := l.finalTxs - {h})
  }

  /** The transaction is written into the height bucket, so it is dropped when there is none. */
  function FinalizeKinder(l: Ledger, h: nat, tx: Option<Tx>): Ledger {
    l.(lastFinalized := h,
       finalTxs := if tx.Some? && Scheduled(l, h) != {} then l.finalTxs[h := tx.value] else l.finalTxs)
  }

  /** No transaction is stored above the height, and a new one has its class. */
  ghost predicate MayFinalize(l: Ledger, h: nat, tx: Option<Tx>) {
    && (forall g <- l.finalTxs :: g <= h)
    && (tx.Some? && Scheduled(l, h) != {} ==> Class(l, h) != {})
  }

  function GraduateHeight(l: Ledger, h: nat): Ledger {
    l.(lastGraduated := h)
  }

  function ChannelIds(l: Ledger, c: OutPoint): set<Id> {
    set id | id in l.stages && id.chan == c
  }

  /** `Some(true)` when every output of the channel has graduated; `None` for an unknown channel. */
  function Maturity(l: Ledger, c: OutPoint): Option<bool> {
    if ChannelIds(l, c) == {} then None
    else Some(forall id | id in ChannelIds(l, c) :: l.stages[id].Grad?)
  }

  function RemoveChannel(l: Ledger, c: OutPoint): Ledger {
    if Maturity(l, c) == Some(true) then l.(stages := l.stages - ChannelIds(l, c)) else l
  }

  /****** What the operations mean, output by output ******/

  /** The kid's own lock: its delay after confirmation, or its absolute height when it has no delay. */
  predicate LockPassed(kid: Kid, g: nat) {
    if kid.blocksToMaturity > 0 then kid.confHeight + kid.blocksToMaturity <= g else kid.absoluteMaturity <= g
  }

  /** Nothing but the stage of `id` has changed. */
  ghost predicate OnlyChanged(l: Ledger, l': Ledger, id: Id) {
    && l' == l.(stages := l'.stages)
    && (forall x | x != id :: (x in l'.stages <==> x in l.stages) && (x in l.stages ==> l'.stages[x] == l.stages[x]))
  }

  /** The kid is filed at the first height above the graduated mark at which its lock has passed. */
  ghost predicate FiledPromptly(l: Ledger, l': Ledger, kid: Kid) {
    && OnlyChanged(l, l', IdOf(kid)) && IdOf(kid) in l'.stages
    && var s := l'.stages[IdOf(kid)];
       && s.Kndr? && s.kid == kid && s.height > l.lastGraduated && LockPassed(kid, s.height)
       && forall g: nat | g > l.lastGraduated && LockPassed(kid, g) :: s.height <= g
  }

  lemma PreschoolFiledPromptly(l: Ledger, kid: Kid)
    ensures FiledPromptly(l, PreschoolToKinder(l, kid), kid)
  {
  }

  /** The output of a confirmed timeout transaction is filed exactly when its delay has passed, late or not. */
  ghost predicate FiledAfterDelay(l: Ledger, l': Ledger, kid: Kid) {
    && OnlyChanged(l, l', IdOf(kid)) && IdOf(kid) in l'.stages
    && var s := l'.stages[IdOf(kid)];
       s.Kndr? && s.kid == kid && s.height == kid.confHeight + kid.blocksToMaturity
  }

  lemma CribFiledAfterDelay(l: Ledger, baby: Baby)
    ensures FiledAfterDelay(l, CribToKinder(l, baby), baby.kid)
  {
  }

  /** Of height `h` everything in kindergarten has graduated, its sweep is gone, and the rest is as it was. */
  ghost predicate ClassGraduated(l: Ledger, l': Ledger, h: nat) {
    && l'.stages.Keys == l.stages.Keys && l'.lastFinalized == l.lastFinalized && l'.lastGraduated == l.lastGraduated
    && (forall id <- l.stages :: match l.stages[id]
          case Kndr(kid, g) => l'.stages[id] == if g == h then Grad(kid) else Kndr(kid, g)
          case _ => l'.stages[id] == l.stages[id])
    && (forall g: nat :: g in l'.finalTxs <==> g in l.finalTxs && g != h)
    && (forall g <- l'.finalTxs :: l'.finalTxs[g] == l.finalTxs[g])
  }

  lemma GraduateKinderClass(l: Ledger, h: nat)
    ensures ClassGraduated(l, GraduateKinder(l, h), h)
  {
  }

  /** If every output of `c` has graduated they are gone; otherwise nothing is. Other channels keep theirs. */
  ghost predicate RemovedIfMature(l: Ledger, l': Ledger, c: OutPoint) {
    && l' == l.(stages := l'.stages)
    && (forall id :: id in l'.stages <==>
          id in l.stages && (id.chan != c || exists x <- l.stages :: x.chan == c && !l.stages[x].Grad?))
    && (forall id <- l'.stages :: l'.stages[id] == l.stages[id])
  }

  lemma RemoveChannelExact(l: Ledger, c: OutPoint)
    ensures RemovedIfMature(l, RemoveChannel(l, c), c)
  {
    if Maturity(l, c) != Some(true) && ChannelIds(l, c) != {} {
      var x :| x in ChannelIds(l, c) && !l.stages[x].Grad?;
      assert x in l.stages && x.chan == c;
    }
    forall id | id in l.stages && id.chan == c
      ensures id in ChannelIds(l, c)
    {
    }
  }

  /****** Well-formedness ******/

  /** What IncubateOutputs builds: a CLTV output carries no relative delay. */
  predicate WellBuilt(kid: Kid) {
    Cltv(kid.witnessType) ==> kid.blocksToMaturity == 0
  }

  /**
    A sweep confirmed in any block above `h` may spend the kid: its relative delay, if any, has
    passed at `h`, and an absolute lock is covered by a transaction lock time of `h`.
  */
  predicate Ripe(kid: Kid, h: nat) {
    && (Csv(kid.witnessType) && kid.blocksToMaturity > 0 ==> kid.confHeight + kid.blocksToMaturity <= h)
    && (Cltv(kid.witnessType) ==> kid.absoluteMaturity <= h)
  }

  /** A record is well built and is not scheduled early. */
  predicate Placed(s: Stage) {
    && WellBuilt(KidOf(s))
    && (s.Crib? ==> Csv(s.baby.kid.witnessType))
    && (s.Kndr? ==> Ripe(s.kid, s.height))
  }

  /** An outpoint belongs to one channel. */
  ghost predicate OneChannel(ids: set<Id>) {
    forall id1, id2 | id1 in ids && id2 in ids && id1.op == id2.op :: id1 == id2
  }

  ghost predicate TxsLive(l: Ledger) {
    forall h <- l.finalTxs :: h <= l.lastFinalized && Class(l, h) != {}
  }

  /** Records are stored under their own names, and a finalized transaction always has its class. */
  ghost predicate Coherent(l: Ledger) {
    && (forall id <- l.stages :: IdOf(KidOf(l.stages[id])) == id)
    && TxsLive(l)
  }

  ghost predicate Sound(l: Ledger) {
    && Coherent(l)
    && (forall id <- l.stages :: Placed(l.stages[id]))
    && OneChannel(l.stages.Keys)
  }

  /** The outpoint is new, or still in its first state. */
  predicate MayEnterPreschool(l: Ledger, kid: Kid) {
    IdOf(kid) in l.stages ==> l.stages[IdOf(kid)].Pscl?
  }

  predicate MayEnterCrib(l: Ledger, baby: Baby) {
    IdOf(baby.kid) in l.stages ==> l.stages[IdOf(baby.kid)].Crib?
  }

  predicate OwnOutpoint(l: Ledger, kid: Kid) {
    forall id <- l.stages | id.op == kid.op :: id.chan == kid.chan
  }

  /****** Preservation, operation by operation ******/

  /** A class that keeps its members stays nonempty. */
  lemma ClassesKept(l: Ledger, l': Ledger)
    requires TxsLive(l)
    requires l'.finalTxs == l.finalTxs && l'.lastFinalized == l.lastFinalized
    requires forall id <- l.stages | l.stages[id].Kndr? :: id in l'.stages && l'.stages[id] == l.stages[id]
    ensures TxsLive(l')
  {
    forall h | h in l'.finalTxs
      ensures Class(l', h) != {}
    {
      var id :| id in Class(l, h);
      assert id in Class(l', h);
    }
  }

  /** Writing one output that is not in kindergarten yet. */
  lemma WriteCoherent(l: Ledger, id: Id, s: Stage)
    requires Coherent(l) && IdOf(KidOf(s)) == id
    requires id in l.stages ==> !l.stages[id].Kndr?
    ensures Coherent(l.(stages := l.stages[id := s]))
  {
    ClassesKept(l, l.(stages := l.stages[id := s]));
  }

  /** Writing a kindergarten output again at its own height. */
  lemma RewriteCoherent(l: Ledger, kid: Kid, h: nat)
    requires Coherent(l) && KndrAt(l, IdOf(kid), h)
    ensures Coherent(l.(stages := l.stages[IdOf(kid) := Kndr(kid, h)]))
  {
    var l' := l.(stages := l.stages[IdOf(kid) := Kndr(kid, h)]);
    forall g | g in l'.finalTxs
      ensures Class(l', g) != {}
    {
      var id :| id in Class(l, g);
      assert id in Class(l', g);
    }
  }

  lemma WriteSound(l: Ledger, id: Id, s: Stage)
    requires Sound(l) && IdOf(KidOf(s)) == id && Placed(s)
    requires id in l.stages ==> !l.stages[id].Kndr?
    requires OwnOutpoint(l, KidOf(s))
    ensures Sound(l.(stages := l.stages[id := s]))
  {
    WriteCoherent(l, id, s);
    assert l.stages[id := s].Keys == l.stages.Keys + {id};
  }

  lemma EnterPreschoolSound(l: Ledger, kid: Kid)
    requires Sound(l) && WellBuilt(kid) && OwnOutpoint(l, kid)
    ensures Sound(EnterPreschool(l, kid))
  {
    if IdOf(kid) !in l.stages {
      WriteSound(l, IdOf(kid), Pscl(kid));
    }
  }

  lemma EnterCribSound(l: Ledger, baby: Baby)
    requires Sound(l) && Csv(baby.kid.witnessType) && OwnOutpoint(l, baby.kid)
    ensures Sound(EnterCrib(l, baby))
  {
    if IdOf(baby.kid) !in l.stages {
      WriteSound(l, IdOf(baby.kid), Crib(baby));
    }
  }

  lemma CribToKinderSound(l: Ledger, baby: Baby)
    requires Sound(l) && InCrib(l, baby) && Csv(baby.kid.witnessType)
    ensures Sound(CribToKinder(l, baby))
  {
    WriteSound(l, IdOf(baby.kid), Kndr(baby.kid, CribTarget(baby)));
  }

  lemma PreschoolToKinderSound(l: Ledger, kid: Kid)
    requires Sound(l) && InPreschool(l, kid) && WellBuilt(kid)
    ensures Sound(PreschoolToKinder(l, kid))
  {
    WriteSound(l, IdOf(kid), Kndr(kid, PreschoolTarget(l, kid)));
  }

  lemma GraduateKinderCoherent(l: Ledger, h: nat)
    requires Coherent(l)
    ensures Coherent(GraduateKinder(l, h))
  {
    var l' := GraduateKinder(l, h);
    forall g | g in l'.finalTxs
      ensures g <= l'.lastFinalized && Class(l', g) != {}
    {
      var id :| id in Class(l, g);
      assert id in Class(l', g);
    }
  }

  lemma GraduateKinderSound(l: Ledger, h: nat)
    requires Sound(l)
    ensures Sound(GraduateKinder(l, h))
  {
    GraduateKinderCoherent(l, h);
    assert GraduateKinder(l, h).stages.Keys == l.stages.Keys;
  }

  /** Finalizing keeps the ledger coherent if and only if these conditions hold. */
  lemma FinalizeCoherentIff(l: Ledger, h: nat, tx: Option<Tx>)
    requires Coherent(l)
    ensures Coherent(FinalizeKinder(l, h, tx)) <==> MayFinalize(l, h, tx)
  {
    var l' := FinalizeKinder(l, h, tx);
    assert forall g: nat :: Class(l', g) == Class(l, g);
  }

  lemma RemoveChannelCoherent(l: Ledger, c: OutPoint)
    requires Coherent(l)
    ensures Coherent(RemoveChannel(l, c))
  {
    ClassesKept(l, RemoveChannel(l, c));
  }

  lemma RemoveChannelSound(l: Ledger, c: OutPoint)
    requires Sound(l)
    ensures Sound(RemoveChannel(l, c))
  {
    RemoveChannelCoherent(l, c);
    assert RemoveChannel(l, c).stages.Keys <= l.stages.Keys;
  }
}
