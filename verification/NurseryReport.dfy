/** The balance report of a closing channel, and what the store's transitions do to it. */
module NurseryReport {
  import opened Chain
  import opened NurseryLedger
  import opened NurseryBuckets
  import opened NurseryStore
  import opened NurserySums

  /****** What each output contributes ******/

  /** An output is in limbo until it has graduated; a preschool direct HTLC is not listed at all. */
  function LimboOf(s: Stage): int {
    match s
    case Crib(baby) => baby.kid.amount
    case Pscl(kid) =>
      if kid.witnessType == CommitmentTimeLock || kid.witnessType == HtlcAcceptedSuccessSecondLevel then kid.amount
      else 0
    case Kndr(kid, _) => if Known(kid.witnessType) then kid.amount else 0
    case Grad(_) => 0
  }

  function RecoveredOf(s: Stage): int {
    if s.Grad? && Known(s.kid.witnessType) then s.kid.amount else 0
  }

  function Limbo(l: Ledger): Id -> int {
    id => if id in l.stages then LimboOf(l.stages[id]) else 0
  }

  function Recovered(l: Ledger): Id -> int {
    id => if id in l.stages then RecoveredOf(l.stages[id]) else 0
  }

  ghost function LimboBalance(l: Ledger, c: OutPoint): int {
    Sum(ChannelIds(l, c), Limbo(l))
  }

  ghost function RecoveredBalance(l: Ledger, c: OutPoint): int {
    Sum(ChannelIds(l, c), Recovered(l))
  }

  /** A stage that the report has a case for. */
  predicate Listed(s: Stage) {
    match s
    case Crib(_) => true
    case Pscl(kid) => kid.witnessType == CommitmentTimeLock || kid.witnessType == HtlcAcceptedSuccessSecondLevel
    case Kndr(kid, _) => Known(kid.witnessType)
    case Grad(kid) => Known(kid.witnessType)
  }

  ghost function ListedIds(l: Ledger, c: OutPoint): set<Id> {
    set id | id in ChannelIds(l, c) && Listed(l.stages[id])
  }

  /** Limbo plus recovered is the sum of the channel's outputs that the report lists. */
  lemma Conservation(l: Ledger, c: OutPoint)
    ensures LimboBalance(l, c) + RecoveredBalance(l, c) == Sum(ListedIds(l, c), Amount(l))
  {
    var ids, grads := ChannelIds(l, c), set id | id in ListedIds(l, c) && l.stages[id].Grad?;
    var zero: Id -> int := id => 0;
    SumZero(ids, zero);
    SumChange(ids, zero, Recovered(l), grads, Amount(l));
    SumChange(ids, zero, Limbo(l), ListedIds(l, c) - grads, Amount(l));
    SumUnion(grads, ListedIds(l, c) - grads, Amount(l));
    assert grads + (ListedIds(l, c) - grads) == ListedIds(l, c);
  }

  /****** Transitions ******/

  /** A two-stage HTLC stays in limbo, with the same amount, when it moves to kindergarten. */
  lemma CribToKinderKeepsBalances(l: Ledger, baby: Baby, c: OutPoint)
    requires InCrib(l, baby) && Known(baby.kid.witnessType)
    requires l.stages[IdOf(baby.kid)].baby.kid.amount == baby.kid.amount
    ensures LimboBalance(CribToKinder(l, baby), c) == LimboBalance(l, c)
    ensures RecoveredBalance(CribToKinder(l, baby), c) == RecoveredBalance(l, c)
  {
    var l' := CribToKinder(l, baby);
    assert ChannelIds(l', c) == ChannelIds(l, c);
    SumSame(ChannelIds(l, c), Limbo(l), Limbo(l'));
    SumSame(ChannelIds(l, c), Recovered(l), Recovered(l'));
  }

  /** A preschool output keeps its balance too, except that a direct HTLC shows up in limbo only now. */
  lemma PreschoolToKinderBalances(l: Ledger, kid: Kid, c: OutPoint)
    requires InPreschool(l, kid) && Known(kid.witnessType)
    requires KidOf(l.stages[IdOf(kid)]).amount == kid.amount
    requires KidOf(l.stages[IdOf(kid)]).witnessType == kid.witnessType
    ensures RecoveredBalance(PreschoolToKinder(l, kid), c) == RecoveredBalance(l, c)
    ensures LimboBalance(PreschoolToKinder(l, kid), c) ==
            LimboBalance(l, c) + if kid.chan == c && !Listed(Pscl(kid)) then kid.amount else 0
  {
    var l' := PreschoolToKinder(l, kid);
    assert ChannelIds(l', c) == ChannelIds(l, c);
    SumSame(ChannelIds(l, c), Recovered(l), Recovered(l'));
    if kid.chan == c && !Listed(Pscl(kid)) {
      var d: Id -> int := id => kid.amount;
      SumChange(ChannelIds(l, c), Limbo(l), Limbo(l'), {IdOf(kid)}, d);
      SumTake({IdOf(kid)}, d, IdOf(kid));
      assert {IdOf(kid)} - {IdOf(kid)} == {};
    } else {
      SumSame(ChannelIds(l, c), Limbo(l), Limbo(l'));
    }
  }

  /** The part of a class that belongs to a channel and that sweeps can spend. */
  ghost function ClassShare(l: Ledger, h: nat, c: OutPoint): set<Id> {
    set id | id in Class(l, h) && id.chan == c && Known(l.stages[id].kid.witnessType)
  }

  /** Graduation moves exactly the class's share of each channel from limbo to recovered. */
  lemma GraduateKinderMovesShare(l: Ledger, h: nat, c: OutPoint)
    ensures var share := Sum(ClassShare(l, h, c), Amount(l));
            && LimboBalance(GraduateKinder(l, h), c) == LimboBalance(l, c) - share
            && RecoveredBalance(GraduateKinder(l, h), c) == RecoveredBalance(l, c) + share
  {
    var l', share := GraduateKinder(l, h), ClassShare(l, h, c);
    assert ChannelIds(l', c) == ChannelIds(l, c);
    SumChange(ChannelIds(l, c), Recovered(l), Recovered(l'), share, Amount(l));
    SumChange(ChannelIds(l, c), Limbo(l), Limbo(l'), share, Negated(Amount(l)));
    SumNegated(share, Amount(l));
  }

  /****** The report object ******/

  datatype HtlcReport = HtlcReport(
    outpoint: OutPoint, amount: int, confHeight: nat, maturityRequirement: nat, maturityHeight: nat, stage: nat)

  function HtlcTotal(htlcs: seq<HtlcReport>): int {
    if htlcs == [] then 0 else HtlcTotal(htlcs[..|htlcs| - 1]) + htlcs[|htlcs| - 1].amount
  }

  /** What a stage shows in the list of HTLCs: its maturity data and whether it is before or after its first stage. */
  function EntryOf(s: Stage): Option<HtlcReport> {
    var kid := KidOf(s);
    var matured := kid.confHeight + kid.blocksToMaturity;
    var second := kid.witnessType == HtlcAcceptedSuccessSecondLevel || kid.witnessType == HtlcOfferedTimeoutSecondLevel;
    match s
    case Crib(baby) => Some(HtlcReport(kid.op, kid.amount, kid.confHeight, 0, baby.expiry, 1))
    case Pscl(_) =>
      if kid.witnessType != HtlcAcceptedSuccessSecondLevel then None
      else Some(HtlcReport(kid.op, kid.amount, kid.confHeight, kid.blocksToMaturity, 0, 1))
    case Kndr(_, _) =>
      if kid.witnessType == HtlcOfferedRemoteTimeout then
        Some(HtlcReport(kid.op, kid.amount, kid.confHeight, 0, kid.absoluteMaturity, 2))
      else if second then
        var due := if kid.confHeight != 0 then matured else 0;
        Some(HtlcReport(kid.op, kid.amount, kid.confHeight, kid.blocksToMaturity, due, 2))
      else None
    case Grad(_) =>
      if second || kid.witnessType == HtlcOfferedRemoteTimeout then
        Some(HtlcReport(kid.op, kid.amount, kid.confHeight, kid.blocksToMaturity, matured, 0))
      else None
  }

  /** The delay is positive after a confirmation, or there is none and an absolute lock instead. */
  predicate WellLocked(kid: Kid) {
    if kid.witnessType == HtlcOfferedRemoteTimeout then kid.blocksToMaturity == 0
    else kid.blocksToMaturity > 0 && kid.confHeight > 0
  }

  /**
    An entry tells the truth about its output: its stage says how far the output has come, and the
    maturity height of a kindergarten output is the first height at which its lock has passed.
  */
  lemma EntryTellsLock(s: Stage, g: nat)
    requires EntryOf(s).Some?
    ensures var entry, kid := EntryOf(s).value, KidOf(s);
            && entry.outpoint == kid.op && entry.amount == kid.amount && entry.confHeight == kid.confHeight
            && (entry.stage == 1 <==> s.Crib? || s.Pscl?) && (entry.stage == 2 <==> s.Kndr?)
            && (s.Crib? ==> (entry.maturityHeight <= g <==> s.baby.expiry <= g))
            && (s.Kndr? && WellLocked(kid) ==> (entry.maturityHeight <= g <==> LockPassed(kid, g)))
  {
  }

  /** The reported maturity is the height at which the output will be swept, or has already passed. */
  lemma MaturityIsClassHeight(l: Ledger, kid: Kid)
    requires WellLocked(kid) && EntryOf(Kndr(kid, 0)).Some?
    ensures var s := PreschoolToKinder(l, kid).stages[IdOf(kid)];
            && s.Kndr? && EntryOf(s).Some?
            && var m := EntryOf(s).value.maturityHeight;
               s.height == if l.lastGraduated < m then m else l.lastGraduated + 1
  {
    PreschoolFiledPromptly(l, kid);
    var s := PreschoolToKinder(l, kid).stages[IdOf(kid)];
    EntryTellsLock(s, s.height);
    EntryTellsLock(s, EntryOf(s).value.maturityHeight);
    EntryTellsLock(s, l.lastGraduated + 1);
  }

  predicate IsCommitment(s: Stage) {
    !s.Crib? && s.kid.witnessType == CommitmentTimeLock
  }

  /** The heading of the report: confirmation height, delay and maturity height of the commitment output. */
  datatype Heading = Heading(confHeight: nat, delay: nat, maturity: nat)

  /** The entries of the given outputs, one each at most, in their order. */
  function EntriesOf(l: Ledger, ids: seq<Id>): seq<HtlcReport>
    requires forall id <- ids :: id in l.stages
  {
    if ids == [] then []
    else
      var n := |ids| - 1;
      var entry := EntryOf(l.stages[ids[n]]);
      EntriesOf(l, ids[..n]) + (if entry.Some? then [entry.value] else [])
  }

  function HeadingOf(l: Ledger, ids: seq<Id>): Heading
    requires forall id <- ids :: id in l.stages
  {
    if ids == [] then Heading(0, 0, 0)
    else
      var n := |ids| - 1;
      var before, s := HeadingOf(l, ids[..n]), l.stages[ids[n]];
      if !IsCommitment(s) then before
      else
        var matured := s.kid.confHeight + s.kid.blocksToMaturity;
        Heading(s.kid.confHeight, s.kid.blocksToMaturity,
                if s.Grad? || s.kid.confHeight != 0 then matured else before.maturity)
  }

  /** `ids` lists the set, each member once. */
  ghost predicate Enumerates(ids: seq<Id>, all: set<Id>) {
    && (forall id :: id in ids <==> id in all)
    && (forall i, j | 0 <= i < j < |ids| :: ids[i] != ids[j])
  }

  class Report {
    const chanPoint: OutPoint
    var limboBalance: int
    var recoveredBalance: int
    var localAmount: int
    var confHeight: nat
    var maturityRequirement: nat
    var maturityHeight: nat
    var htlcs: seq<HtlcReport>

    /** Every satoshi in the two balances belongs to the commitment or to a listed HTLC. */
    predicate Balanced()
      reads this
    {
      limboBalance + recoveredBalance == localAmount + HtlcTotal(htlcs)
    }

    function Top(): Heading
      reads this
    {
      Heading(confHeight, maturityRequirement, maturityHeight)
    }

    /** The two balances have grown by these amounts. */
    twostate predicate Grew(limbo: int, recovered: int)
      reads this
    {
      && limboBalance == old(limboBalance) + limbo
      && recoveredBalance == old(recoveredBalance) + recovered
      && (old(Balanced()) ==> Balanced())
    }

    constructor (c: OutPoint)
      ensures chanPoint == c && limboBalance == recoveredBalance == 0 && Balanced()
      ensures htlcs == [] && Top() == Heading(0, 0, 0)
    {
      chanPoint := c;
      limboBalance, recoveredBalance, localAmount := 0, 0, 0;
      confHeight, maturityRequirement, maturityHeight := 0, 0, 0;
      htlcs := [];
    }

    method AddHtlc(r: HtlcReport)
      modifies `htlcs
      ensures htlcs == old(htlcs) + [r] && HtlcTotal(htlcs) == old(HtlcTotal(htlcs)) + r.amount
    {
      htlcs := htlcs + [r];
      assert htlcs[..|htlcs| - 1] == old(htlcs);
    }

    method AddLimboCommitment(kid: Kid)
      modifies this
      ensures Grew(kid.amount, 0)
      ensures htlcs == old(htlcs) && confHeight == kid.confHeight && maturityRequirement == kid.blocksToMaturity
      ensures maturityHeight ==
              if kid.confHeight != 0 then kid.confHeight + kid.blocksToMaturity else old(maturityHeight)
    {
      limboBalance := limboBalance + kid.amount;
      localAmount := localAmount + kid.amount;
      confHeight := kid.confHeight;
      maturityRequirement := kid.blocksToMaturity;
      if kid.confHeight != 0 {
        maturityHeight := kid.blocksToMaturity + kid.confHeight;
      }
    }

    method AddRecoveredCommitment(kid: Kid)
      modifies this
      ensures Grew(0, kid.amount)
      ensures htlcs == old(htlcs) && confHeight == kid.confHeight && maturityRequirement == kid.blocksToMaturity
      ensures maturityHeight == kid.confHeight + kid.blocksToMaturity
    {
      recoveredBalance := recoveredBalance + kid.amount;
      localAmount := localAmount + kid.amount;
      confHeight := kid.confHeight;
      maturityRequirement := kid.blocksToMaturity;
      maturityHeight := kid.blocksToMaturity + kid.confHeight;
    }

    method AddLimboStage1TimeoutHtlc(baby: Baby)
      modifies this
      ensures Top() == old(Top())
      ensures Grew(baby.kid.amount, 0)
      ensures htlcs == old(htlcs) + [HtlcReport(baby.kid.op, baby.kid.amount, baby.kid.confHeight, 0, baby.expiry, 1)]
    {
      limboBalance := limboBalance + baby.kid.amount;
      AddHtlc(HtlcReport(baby.kid.op, baby.kid.amount, baby.kid.confHeight, 0, baby.expiry, 1));
    }

    method AddLimboDirectHtlc(kid: Kid)
      modifies this
      ensures Top() == old(Top())
      ensures Grew(kid.amount, 0)
      ensures htlcs == old(htlcs) + [HtlcReport(kid.op, kid.amount, kid.confHeight, 0, kid.absoluteMaturity, 2)]
    {
      limboBalance := limboBalance + kid.amount;
      AddHtlc(HtlcReport(kid.op, kid.amount, kid.confHeight, 0, kid.absoluteMaturity, 2));
    }

    method AddLimboStage1SuccessHtlc(kid: Kid)
      modifies this
      ensures Top() == old(Top())
      ensures Grew(kid.amount, 0)
      ensures htlcs == old(htlcs) + [HtlcReport(kid.op, kid.amount, kid.confHeight, kid.blocksToMaturity, 0, 1)]
    {
      limboBalance := limboBalance + kid.amount;
      AddHtlc(HtlcReport(kid.op, kid.amount, kid.confHeight, kid.blocksToMaturity, 0, 1));
    }

    method AddLimboStage2Htlc(kid: Kid)
      modifies this
      ensures Top() == old(Top())
      ensures Grew(kid.amount, 0)
      ensures htlcs == old(htlcs) + [HtlcReport(kid.op, kid.amount, kid.confHeight, kid.blocksToMaturity,
                         if kid.confHeight != 0 then kid.confHeight + kid.blocksToMaturity else 0, 2)]
    {
      limboBalance := limboBalance + kid.amount;
      var r := HtlcReport(kid.op, kid.amount, kid.confHeight, kid.blocksToMaturity, 0, 2);
      if kid.confHeight != 0 {
        r := r.(maturityHeight := kid.confHeight + kid.blocksToMaturity);
      }
      AddHtlc(r);
    }

    method AddRecoveredHtlc(kid: Kid)
      modifies this
      ensures Top() == old(Top())
      ensures Grew(0, kid.amount)
      ensures htlcs == old(htlcs) + [HtlcReport(kid.op, kid.amount, kid.confHeight, kid.blocksToMaturity,
                                                kid.confHeight + kid.blocksToMaturity, 0)]
    {
      recoveredBalance := recoveredBalance + kid.amount;
      AddHtlc(HtlcReport(kid.op, kid.amount, kid.confHeight, kid.blocksToMaturity,
                         kid.confHeight + kid.blocksToMaturity, 0));
    }

    /** Dispatch on the state prefix, then on the witness type. */
    method AddRecord(p: Prefix, r: Record, ghost s: Stage)
      requires p == PrefixOf(s) && r == RecordOf(s)
      modifies this
      ensures Grew(LimboOf(s), RecoveredOf(s))
      ensures htlcs == old(htlcs) + if EntryOf(s).Some? then [EntryOf(s).value] else []
      ensures !IsCommitment(s) ==> Top() == old(Top())
      ensures IsCommitment(s) ==>
                Top() == Heading(s.kid.confHeight, s.kid.blocksToMaturity,
                                 if s.Grad? || s.kid.confHeight != 0 then s.kid.confHeight + s.kid.blocksToMaturity
                                 else old(maturityHeight))
    {
      if p == CribP {
        AddLimboStage1TimeoutHtlc(r.baby);
        return;
      }
      var w := r.kid.witnessType;
      match p {
        case PsclP =>
          if w == CommitmentTimeLock {
            AddLimboCommitment(r.kid);
          } else if w == HtlcAcceptedSuccessSecondLevel {
            AddLimboStage1SuccessHtlc(r.kid);
          }
        case KndrP =>
          if w == CommitmentTimeLock {
            AddLimboCommitment(r.kid);
          } else if w == HtlcOfferedRemoteTimeout {
            AddLimboDirectHtlc(r.kid);
          } else if w == HtlcAcceptedSuccessSecondLevel || w == HtlcOfferedTimeoutSecondLevel {
            AddLimboStage2Htlc(r.kid);
          }
        case GradP =>
          if w == CommitmentTimeLock {
            AddRecoveredCommitment(r.kid);
          } else if w == HtlcAcceptedSuccessSecondLevel || w == HtlcOfferedTimeoutSecondLevel
                    || w == HtlcOfferedRemoteTimeout {
            AddRecoveredHtlc(r.kid);
          }
      }
    }
  }

  /** The outputs of a channel under a set of keys. */
  ghost function KeyIds(c: OutPoint, keys: set<Key>): set<Id> {
    set k | k in keys :: Id(c, k.op)
  }

  lemma KeyOfOutput(ci: ChanIndex, l: Ledger, c: OutPoint, k: Key)
    requires ChannelsAgree(ci, l) && c in ci && k in ci[c]
    ensures Holds(l, c, k) && ci[c][k] == RecordOf(l.stages[Id(c, k.op)])
  {
    assert Lookup(ci, c, k) == Entry(l, c, k);
  }

  lemma AllKeys(ci: ChanIndex, l: Ledger, c: OutPoint)
    requires ChannelsAgree(ci, l) && c in ci
    ensures KeyIds(c, ci[c].Keys) == ChannelIds(l, c)
  {
    forall k | k in ci[c]
      ensures Id(c, k.op) in ChannelIds(l, c)
    {
      KeyOfOutput(ci, l, c, k);
    }
    forall id | id in ChannelIds(l, c)
      ensures id in KeyIds(c, ci[c].Keys)
    {
      var k := Key(PrefixOf(l.stages[id]), id.op);
      assert Lookup(ci, c, k) == Entry(l, c, k);
    }
  }

  /** An outpoint has one key, so taking a key away takes its output away. */
  lemma OneKeyLess(ci: ChanIndex, l: Ledger, c: OutPoint, keys: set<Key>, k: Key)
    requires ChannelsAgree(ci, l) && c in ci && keys <= ci[c].Keys && k in keys
    ensures KeyIds(c, keys - {k}) == KeyIds(c, keys) - {Id(c, k.op)}
  {
    KeyOfOutput(ci, l, c, k);
    forall j | j in keys && j.op == k.op
      ensures j == k
    {
      KeyOfOutput(ci, l, c, j);
    }
  }

  lemma OneMore(l: Ledger, order: seq<Id>, id: Id, all: set<Id>, left: set<Id>)
    requires Enumerates(order, all - left) && id in left && left <= all && all <= l.stages.Keys
    ensures Enumerates(order + [id], all - (left - {id}))
    ensures var entry := EntryOf(l.stages[id]);
            EntriesOf(l, order + [id]) == EntriesOf(l, order) + if entry.Some? then [entry.value] else []
    ensures (order + [id])[..|order|] == order
  {
    assert (order + [id])[..|order|] == order;
  }

  /**
    Walk over a channel's outputs; the balances come out as the sums over the ledger, and in the
    order of the walk each output shows up once, with the maturity data of its stage.
  */
  method BuildReport(store: Store, c: OutPoint) returns (err: Option<StoreError>, report: Report, ghost order: seq<Id>)
    requires store.Valid()
    ensures err == if ChannelIds(store.ledger, c) == {} then Some(ContractNotFound) else None
    ensures fresh(report) && report.chanPoint == c
    ensures err.None? ==> report.limboBalance == LimboBalance(store.ledger, c)
    ensures err.None? ==> report.recoveredBalance == RecoveredBalance(store.ledger, c)
    ensures err.None? ==> report.Balanced()
    ensures err.None? ==> Enumerates(order, ChannelIds(store.ledger, c))
    ensures err.None? ==> report.htlcs == EntriesOf(store.ledger, order)
    ensures err.None? ==> report.Top() == HeadingOf(store.ledger, order)
  {
    order := [];
    report := new Report(c);
    KnownChannels(store.channels, store.ledger, c);
    if c !in store.channels {
      return Some(ContractNotFound), report, order;
    }
    err := None;
    ghost var l := store.ledger;
    var bucket := store.channels[c];
    var keys := bucket.Keys;
    AllKeys(store.channels, l, c);
    while keys != {}
      invariant keys <= bucket.Keys && report.Balanced()
      invariant report.limboBalance + Sum(KeyIds(c, keys), Limbo(l)) == LimboBalance(l, c)
      invariant report.recoveredBalance + Sum(KeyIds(c, keys), Recovered(l)) == RecoveredBalance(l, c)
      invariant Enumerates(order, ChannelIds(l, c) - KeyIds(c, keys)) && KeyIds(c, keys) <= ChannelIds(l, c)
      invariant report.htlcs == EntriesOf(l, order) && report.Top() == HeadingOf(l, order)
    {
      var k :| k in keys;
      KeyOfOutput(store.channels, l, c, k);
      OneKeyLess(store.channels, l, c, keys, k);
      SumTake(KeyIds(c, keys), Limbo(l), Id(c, k.op));
      SumTake(KeyIds(c, keys), Recovered(l), Id(c, k.op));
      report.AddRecord(k.prefix, bucket[k], l.stages[Id(c, k.op)]);
      OneMore(l, order, Id(c, k.op), ChannelIds(l, c), KeyIds(c, keys));
      keys, order := keys - {k}, order + [Id(c, k.op)];
    }
  }
}
