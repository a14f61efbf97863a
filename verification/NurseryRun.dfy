/**
  Whole runs of the nursery: every store write is one step, a crash may fall between any two
  steps, and block heights may repeat or go back. History fields record what was finalized,
  broadcast and confirmed.
*/
module NurseryRun {
  import opened Chain
  import opened NurseryLedger
  import opened NurseryStore
  import opened NurserySweep

  datatype Sweep = Sweep(height: nat, tx: Tx)

  /** Where the process is: graduateClass holds the nursery's lock from `Sweeping` to `Ready`. */
  datatype Pc = Down | Ready | Sweeping(height: nat, tx: Option<Tx>) | Swept(height: nat)

  datatype Sys = Sys(
    l: Ledger,                      // on disk
    pc: Pc,                         // lost in a crash
    waiters: set<Sweep>,            // lost in a crash
    finalized: map<nat, Option<Tx>>,
    classes: map<nat, seq<Kid>>,
    published: set<Sweep>,
    confirmed: set<Tx>)

  datatype Event =
    | IncubateOutputs(kids: seq<Kid>, babies: seq<Baby>)
    | PreschoolConf(id: Id, confHeight: nat)
    | TimeoutConf(id: Id, confHeight: nat)
    | Finalize(height: nat, kids: seq<Kid>, fee: int, script: seq<byte>)
    | Replay(height: nat)
    | Publish
    | Abort
    | MarkGraduated
    | SweepConf(sweep: Sweep)
    | RemoveMature(chan: OutPoint)
    | Crash
    | Restart

  predicate Started(l: Ledger, s: Sys) {
    s == Sys(l, Down, {}, map[], map[], {}, {}) && l.stages == map[] && l.finalTxs == map[]
  }

  /** The sweep that graduateClass builds; none for an empty class. */
  function SweepTx(kids: seq<Kid>, h: nat, fee: int, script: seq<byte>): Option<Tx> {
    if kids == [] then None else Some(SweepOf(kids, h, fee, script))
  }

  function Confirmed(kid: Kid, confHeight: nat): Kid {
    kid.(confHeight := confHeight)
  }

  function TxOf(l: Ledger, h: nat): Option<Tx> {
    if h in l.finalTxs then Some(l.finalTxs[h]) else None
  }

  ghost predicate Enabled(s: Sys, e: Event) {
    match e
    case IncubateOutputs(kids, babies) => s.pc.Ready? && MayIncubate(s.l, kids, babies)
    case PreschoolConf(id, _) => s.pc.Ready? && id in s.l.stages && s.l.stages[id].Pscl?
    case TimeoutConf(id, _) => s.pc.Ready? && id in s.l.stages && s.l.stages[id].Crib?
    case Finalize(h, kids, fee, script) =>
      && s.pc.Ready? && h > s.l.lastFinalized && ListsClass(s.l, h, kids)
      && (kids != [] ==> Sane(SweepOf(kids, h, fee, script)))
    case Replay(h) => s.pc.Ready? && h <= s.l.lastFinalized
    case Publish => s.pc.Sweeping?
    case Abort => s.pc.Sweeping? || s.pc.Swept?
    case MarkGraduated => s.pc.Swept?
    case SweepConf(sweep) => s.pc.Ready? && sweep in s.waiters
    case RemoveMature(_) => s.pc.Ready?
    case Crash => true
    case Restart => s.pc.Down?
  }

  function Next(s: Sys, e: Event): Sys {
    match e
    case IncubateOutputs(kids, babies) => s.(l := Incubate(s.l, kids, babies))
    case PreschoolConf(id, conf) =>
      if id in s.l.stages then s.(l := PreschoolToKinder(s.l, Confirmed(KidOf(s.l.stages[id]), conf))) else s
    case TimeoutConf(id, conf) =>
      if id in s.l.stages && s.l.stages[id].Crib? then
        var baby := s.l.stages[id].baby;
        s.(l := CribToKinder(s.l, baby.(kid := Confirmed(baby.kid, conf))))
      else s
    case Finalize(h, kids, fee, script) =>
      var tx := SweepTx(kids, h, fee, script);
      s.(l := FinalizeKinder(s.l, h, tx), pc := Sweeping(h, tx),
         finalized := s.finalized[h := tx], classes := s.classes[h := kids])
    case Replay(h) => s.(pc := Sweeping(h, TxOf(s.l, h)))
    case Publish =>
      if !s.pc.Sweeping? then s
      else if s.pc.tx.None? then s.(pc := Swept(s.pc.height))
      else
        var sweep := Sweep(s.pc.height, s.pc.tx.value);
        s.(pc := Swept(s.pc.height), published := s.published + {sweep}, waiters := s.waiters + {sweep})
    case Abort => s.(pc := Ready)
    case MarkGraduated => if s.pc.Swept? then s.(l := GraduateHeight(s.l, s.pc.height), pc := Ready) else s
    case SweepConf(sweep) => s.(l := GraduateKinder(s.l, sweep.height), confirmed := s.confirmed + {sweep.tx})
    case RemoveMature(c) => s.(l := RemoveChannel(s.l, c))
    case Crash => s.(pc := Down, waiters := {})
    case Restart => s.(pc := Ready, waiters := Rewatched(s.l))
  }

  /** reloadClasses registers every stored sweep at or below the last graduated height again. */
  function Rewatched(l: Ledger): set<Sweep> {
    set h | h in l.finalTxs && h <= l.lastGraduated :: Sweep(h, l.finalTxs[h])
  }

  ghost predicate Legal(s: Sys, es: seq<Event>)
    decreases |es|
  {
    es == [] || (Enabled(s, es[0]) && Legal(Next(s, es[0]), es[1..]))
  }

  function Exec(s: Sys, es: seq<Event>): Sys
    decreases |es|
  {
    if es == [] then s else Exec(Next(s, es[0]), es[1..])
  }

  /****** 1. One sweep per height, for any block heights ******/

  ghost predicate Recorded(s: Sys, sweep: Sweep) {
    sweep.height in s.finalized && s.finalized[sweep.height] == Some(sweep.tx)
  }

  ghost predicate SweepInv(s: Sys) {
    && (forall h <- s.finalized :: h <= s.l.lastFinalized)
    && (forall h <- s.l.finalTxs :: Recorded(s, Sweep(h, s.l.finalTxs[h])))
    && (forall w <- s.published :: Recorded(s, w))
    && (forall w <- s.waiters :: Recorded(s, w))
    && (s.pc.Sweeping? ==> s.pc.tx == TxOf(s.l, s.pc.height))
  }

  /** History only grows, and the finalized mark only rises. */
  ghost predicate Grows(s: Sys, s': Sys) {
    && s.l.lastFinalized <= s'.l.lastFinalized
    && (forall h <- s.finalized :: h in s'.finalized && s'.finalized[h] == s.finalized[h])
    && s.published <= s'.published
  }

  lemma {:induction false} IncubateKeepsTxs(l: Ledger, kids: seq<Kid>)
    ensures var l' := EnterPreschools(l, kids);
            l' == l.(stages := l'.stages) && forall id <- l.stages :: id in l'.stages && l'.stages[id] == l.stages[id]
    ensures forall id <- EnterPreschools(l, kids).stages :: id in l.stages || EnterPreschools(l, kids).stages[id].Pscl?
    decreases |kids|
  {
    if kids != [] {
      IncubateKeepsTxs(l, kids[..|kids| - 1]);
    }
  }

  lemma {:induction false} CribsKeepTxs(l: Ledger, babies: seq<Baby>)
    ensures var l' := EnterCribs(l, babies);
            l' == l.(stages := l'.stages) && forall id <- l.stages :: id in l'.stages && l'.stages[id] == l.stages[id]
    ensures forall id <- EnterCribs(l, babies).stages :: id in l.stages || EnterCribs(l, babies).stages[id].Crib?
    decreases |babies|
  {
    if babies != [] {
      CribsKeepTxs(l, babies[..|babies| - 1]);
    }
  }

  /** What incubation adds is what it was given. */
  lemma {:induction false} PreschoolsFrom(l: Ledger, kids: seq<Kid>)
    ensures forall id <- EnterPreschools(l, kids).stages | id !in l.stages ::
              exists kid <- kids :: IdOf(kid) == id && EnterPreschools(l, kids).stages[id] == Pscl(kid)
    decreases |kids|
  {
    if kids != [] {
      PreschoolsFrom(l, kids[..|kids| - 1]);
      assert forall kid <- kids[..|kids| - 1] :: kid in kids;
      assert kids[|kids| - 1] in kids;
    }
  }

  lemma {:induction false} CribsFrom(l: Ledger, babies: seq<Baby>)
    ensures forall id <- EnterCribs(l, babies).stages | id !in l.stages ::
              exists baby <- babies :: IdOf(baby.kid) == id && EnterCribs(l, babies).stages[id] == Crib(baby)
    decreases |babies|
  {
    if babies != [] {
      CribsFrom(l, babies[..|babies| - 1]);
      assert forall baby <- babies[..|babies| - 1] :: baby in babies;
      assert babies[|babies| - 1] in babies;
    }
  }

  /** Incubation adds outputs in their first stage and changes nothing else. */
  lemma IncubateOnlyAdds(l: Ledger, kids: seq<Kid>, babies: seq<Baby>)
    ensures var l' := Incubate(l, kids, babies);
            && l' == l.(stages := l'.stages)
            && (forall id <- l.stages :: id in l'.stages && l'.stages[id] == l.stages[id])
            && (forall id <- l'.stages | id !in l.stages :: l'.stages[id].Pscl? || l'.stages[id].Crib?)
  {
    IncubateKeepsTxs(l, kids);
    CribsKeepTxs(EnterPreschools(l, kids), babies);
  }

  /** A nonempty listed class has an entry to hang its transaction on. */
  lemma ClassIsScheduled(l: Ledger, h: nat, kids: seq<Kid>)
    requires ListsClass(l, h, kids)
    ensures kids != [] <==> Class(l, h) != {}
    ensures kids != [] ==> Scheduled(l, h) != {}
  {
    if kids != [] {
      assert IdOf(kids[0]) in Class(l, h);
      assert IdOf(kids[0]) in Scheduled(l, h);
    }
    if Class(l, h) != {} {
      var id :| id in Class(l, h);
      assert KndrAt(l, id, h);
    }
  }

  lemma StepKeepsSweepInv(s: Sys, e: Event)
    requires SweepInv(s) && Enabled(s, e)
    ensures SweepInv(Next(s, e)) && Grows(s, Next(s, e))
  {
    match e
    case IncubateOutputs(kids, babies) => IncubateOnlyAdds(s.l, kids, babies);
    case Finalize(h, kids, fee, script) => FinalizeKeepsSweepInv(s, h, kids, fee, script);
    case _ =>
  }

  /** A new height is recorded with the transaction that reaches the disk. */
  lemma FinalizeKeepsSweepInv(s: Sys, h: nat, kids: seq<Kid>, fee: int, script: seq<byte>)
    requires SweepInv(s) && Enabled(s, Finalize(h, kids, fee, script))
    ensures SweepInv(Next(s, Finalize(h, kids, fee, script))) && Grows(s, Next(s, Finalize(h, kids, fee, script)))
  {
    ClassIsScheduled(s.l, h, kids);
  }

  lemma {:induction false} RunKeepsSweepInv(s: Sys, es: seq<Event>)
    requires SweepInv(s) && Legal(s, es)
    ensures SweepInv(Exec(s, es)) && Grows(s, Exec(s, es))
    decreases |es|
  {
    if es != [] {
      StepKeepsSweepInv(s, es[0]);
      RunKeepsSweepInv(Next(s, es[0]), es[1..]);
    }
  }

  /** Finalized heights strictly increase along a run, so no height is finalized twice. */
  lemma {:induction false} FinalizeHeightsIncrease(s: Sys, es: seq<Event>, i: nat, j: nat)
    requires SweepInv(s) && Legal(s, es)
    requires i < j < |es| && es[i].Finalize? && es[j].Finalize?
    ensures es[i].height < es[j].height
    decreases |es|
  {
    StepKeepsSweepInv(s, es[0]);
    var s1, rest := Next(s, es[0]), es[1..];
    if i > 0 {
      FinalizeHeightsIncrease(s1, rest, i - 1, j - 1);
    } else {
      FinalizeAbove(s1, rest, j - 1);
    }
  }

  lemma {:induction false} FinalizeAbove(s: Sys, es: seq<Event>, j: nat)
    requires SweepInv(s) && Legal(s, es) && j < |es| && es[j].Finalize?
    ensures es[j].height > s.l.lastFinalized
    decreases |es|
  {
    if j > 0 {
      StepKeepsSweepInv(s, es[0]);
      FinalizeAbove(Next(s, es[0]), es[1..], j - 1);
    }
  }

  /**
    For any block heights, crashes and failed broadcasts: at most one kindergarten sweep is ever
    broadcast per height, it is the one that was persisted for that height, and the transaction
    about to be broadcast is always the one on disk.
  */
  lemma OneSweepPerHeight(l: Ledger, s: Sys, es: seq<Event>)
    requires Started(l, s) && Legal(s, es)
    ensures var s' := Exec(s, es);
            && (forall w1, w2 | w1 in s'.published && w2 in s'.published && w1.height == w2.height :: w1 == w2)
            && (forall w <- s'.published :: Recorded(s', w) && w.height <= s'.l.lastFinalized)
            && (s'.pc.Sweeping? && s'.pc.tx.Some? ==>
                  s'.pc.height in s'.l.finalTxs && s'.l.finalTxs[s'.pc.height] == s'.pc.tx.value)
    ensures forall i, j | 0 <= i < j < |es| && es[i].Finalize? && es[j].Finalize? :: es[i].height < es[j].height
  {
    RunKeepsSweepInv(s, es);
    forall i, j | 0 <= i < j < |es| && es[i].Finalize? && es[j].Finalize?
      ensures es[i].height < es[j].height
    {
      FinalizeHeightsIncrease(s, es, i, j);
    }
  }

  /****** 2. Nothing is forgotten, nothing graduates unswept ******/

  /** Each kindergarten output of a known type is above the finalized mark or spent by its height's stored sweep. */
  ghost predicate Covered(l: Ledger) {
    forall id <- l.stages | l.stages[id].Kndr? && Known(l.stages[id].kid.witnessType) ::
      var h := l.stages[id].height;
      h > l.lastFinalized || (h in l.finalTxs && Spends(l.finalTxs[h], id.op))
  }

  /** A stored sweep spends exactly the outputs of known type that are still in its class. */
  ghost predicate Exact(l: Ledger) {
    forall h <- l.finalTxs :: Prevouts(l.finalTxs[h]) == KnownOps(l, h)
  }

  ghost function SpentOps(txs: set<Tx>): set<OutPoint> {
    set tx, op | tx in txs && op in Prevouts(tx) :: op
  }

  /** A graduated output of known type was spent by a confirmed sweep. */
  ghost predicate GraduatesSwept(s: Sys) {
    forall id <- s.l.stages | s.l.stages[id].Grad? && Known(s.l.stages[id].kid.witnessType) ::
      id.op in SpentOps(s.confirmed)
  }

  /** Every sweep that was ever finalized met the timelocks of the class it was built from. */
  ghost predicate NeverEarly(s: Sys) {
    forall h <- s.finalized | s.finalized[h].Some? :: h in s.classes && LocksMet(s.finalized[h].value, s.classes[h], h)
  }

  /** A kindergarten output at a height that was finalized with a sweep still finds that sweep stored. */
  ghost predicate StillStored(s: Sys) {
    forall id <- s.l.stages | s.l.stages[id].Kndr? ::
      s.l.stages[id].height in s.finalized && s.finalized[s.l.stages[id].height].Some? ==>
        s.l.stages[id].height in s.l.finalTxs
  }

  /** No output is placed before its time, and no sweep was built before its inputs were ripe. */
  ghost predicate OnTime(s: Sys) {
    Sound(s.l) && NeverEarly(s)
  }

  /** Sweeps and classes match, so what graduates has been swept. */
  ghost predicate Matched(s: Sys) {
    Exact(s.l) && GraduatesSwept(s) && StillStored(s)
  }

  ghost predicate Inv(s: Sys) {
    SweepInv(s) && OnTime(s) && Matched(s) && Covered(s.l)
  }

  ghost predicate WellOwned(l: Ledger, kids: seq<Kid>, babies: seq<Baby>) {
    KidsOwned(l, kids) && BabiesOwned(EnterPreschools(l, kids), babies)
  }

  /** Each output is well built and its outpoint belongs to no other channel when its turn comes. */
  ghost predicate KidsOwned(l: Ledger, kids: seq<Kid>) {
    forall i | 0 <= i < |kids| :: WellBuilt(kids[i]) && OwnOutpoint(EnterPreschools(l, kids[..i]), kids[i])
  }

  ghost predicate BabiesOwned(l: Ledger, babies: seq<Baby>) {
    forall i | 0 <= i < |babies| ::
      Csv(babies[i].kid.witnessType) && OwnOutpoint(EnterCribs(l, babies[..i]), babies[i].kid)
  }

  /** No kindergarten output is due between the finalized mark and `h`. */
  ghost predicate NothingSkipped(l: Ledger, h: nat) {
    forall id <- l.stages | l.stages[id].Kndr? && Known(l.stages[id].kid.witnessType) ::
      !(l.lastFinalized < l.stages[id].height < h)
  }

  /** Incubated outputs are well built and belong to one channel each. */
  ghost predicate WellFed(s: Sys, e: Event) {
    e.IncubateOutputs? ==> WellOwned(s.l, e.kids, e.babies)
  }

  /** Besides, every confirmation files its output above the last finalized height. */
  ghost predicate Timely(s: Sys, e: Event) {
    WellFed(s, e) && (Arrival(s, e) ==> ArrivalHeight(s, e) > s.l.lastFinalized)
  }

  /** Besides, no height with a due output is passed over. */
  ghost predicate Disciplined(s: Sys, e: Event) {
    Timely(s, e) && (e.Finalize? ==> NothingSkipped(s.l, e.height))
  }

  lemma {:induction false} PreschoolsSound(l: Ledger, kids: seq<Kid>)
    requires Sound(l)
    requires KidsOwned(l, kids)
    ensures Sound(EnterPreschools(l, kids))
    decreases |kids|
  {
    if kids != [] {
      var n := |kids| - 1;
      KidsOwnedPrefix(l, kids);
      PreschoolsSound(l, kids[..n]);
      EnterPreschoolSound(EnterPreschools(l, kids[..n]), kids[n]);
    }
  }

  lemma KidsOwnedPrefix(l: Ledger, kids: seq<Kid>)
    requires kids != [] && KidsOwned(l, kids)
    ensures KidsOwned(l, kids[..|kids| - 1])
  {
    var rest := kids[..|kids| - 1];
    forall i | 0 <= i < |rest|
      ensures WellBuilt(rest[i]) && OwnOutpoint(EnterPreschools(l, rest[..i]), rest[i])
    {
      assert rest[..i] == kids[..i];
    }
  }

  lemma {:induction false} CribsSound(l: Ledger, babies: seq<Baby>)
    requires Sound(l)
    requires BabiesOwned(l, babies)
    ensures Sound(EnterCribs(l, babies))
    decreases |babies|
  {
    if babies != [] {
      var n := |babies| - 1;
      BabiesOwnedPrefix(l, babies);
      CribsSound(l, babies[..n]);
      EnterCribSound(EnterCribs(l, babies[..n]), babies[n]);
    }
  }

  lemma BabiesOwnedPrefix(l: Ledger, babies: seq<Baby>)
    requires babies != [] && BabiesOwned(l, babies)
    ensures BabiesOwned(l, babies[..|babies| - 1])
  {
    var rest := babies[..|babies| - 1];
    forall i | 0 <= i < |rest|
      ensures Csv(rest[i].kid.witnessType) && OwnOutpoint(EnterCribs(l, rest[..i]), rest[i].kid)
    {
      assert rest[..i] == babies[..i];
    }
  }

  /** Classes at or below the finalized mark are untouched by an output that arrives above it. */
  lemma ArrivalKeepsExact(l: Ledger, id: Id, kid: Kid, h: nat)
    requires Exact(l) && TxsLive(l) && h > l.lastFinalized
    requires id in l.stages && !l.stages[id].Kndr?
    ensures Exact(l.(stages := l.stages[id := Kndr(kid, h)]))
  {
    var l' := l.(stages := l.stages[id := Kndr(kid, h)]);
    forall g | g in l'.finalTxs
      ensures KnownOps(l', g) == KnownOps(l, g)
    {
      assert g != h;
      assert forall x :: KndrAt(l', x, g) <==> KndrAt(l, x, g);
    }
  }

  /**
    An output that moves to kindergarten at height `h` is covered if and only if `h` has not
    been finalized yet. A restart can open the other case: the late bump aims at the height
    after the last graduated one, which may already be finalized.
  */
  lemma ArrivalCoveredIff(l: Ledger, id: Id, kid: Kid, h: nat)
    requires Sound(l) && Covered(l) && Exact(l)
    requires id in l.stages && !l.stages[id].Kndr? && IdOf(kid) == id && Known(kid.witnessType)
    ensures Covered(l.(stages := l.stages[id := Kndr(kid, h)])) <==> h > l.lastFinalized
  {
    var l' := l.(stages := l.stages[id := Kndr(kid, h)]);
    assert l'.stages[id] == Kndr(kid, h);
    if h <= l.lastFinalized && h in l.finalTxs {
      assert id.op !in KnownOps(l, h);
      assert !Spends(l'.finalTxs[h], id.op);
    }
  }

  /** Finalizing `h` leaves everything covered if and only if no due height is skipped. */
  lemma FinalizeCoveredIff(l: Ledger, h: nat, kids: seq<Kid>, fee: int, script: seq<byte>)
    requires Sound(l) && Covered(l) && h > l.lastFinalized && ListsClass(l, h, kids)
    ensures Covered(FinalizeKinder(l, h, SweepTx(kids, h, fee, script))) <==> NothingSkipped(l, h)
  {
    if NothingSkipped(l, h) {
      FinalizeCovers(l, h, kids, fee, script);
    } else {
      var l' := FinalizeKinder(l, h, SweepTx(kids, h, fee, script));
      var id :| id in l.stages && l.stages[id].Kndr? && Known(l.stages[id].kid.witnessType)
                && l.lastFinalized < l.stages[id].height < h;
      assert l.stages[id].height !in l.finalTxs;
      assert l'.stages[id] == l.stages[id] && l.stages[id].height !in l'.finalTxs;
    }
  }

  lemma FinalizeCovers(l: Ledger, h: nat, kids: seq<Kid>, fee: int, script: seq<byte>)
    requires Covered(l) && TxsLive(l) && NothingSkipped(l, h) && h > l.lastFinalized && ListsClass(l, h, kids)
    ensures Covered(FinalizeKinder(l, h, SweepTx(kids, h, fee, script)))
  {
    var l' := FinalizeKinder(l, h, SweepTx(kids, h, fee, script));
    ClassIsScheduled(l, h, kids);
    if kids != [] {
      SweepSpendsClass(l, h, kids, fee, script);
    }
    forall id | id in l'.stages && l'.stages[id].Kndr? && Known(l'.stages[id].kid.witnessType)
      ensures var g := l'.stages[id].height; g > h || (g in l'.finalTxs && Spends(l'.finalTxs[g], id.op))
    {
      if l.stages[id].height == h {
        assert id in Class(l, h);
        assert id.op in KnownOps(l, h);
      }
    }
  }

  lemma FinalizeKeepsExact(l: Ledger, h: nat, kids: seq<Kid>, fee: int, script: seq<byte>)
    requires Exact(l) && ListsClass(l, h, kids)
    ensures Exact(FinalizeKinder(l, h, SweepTx(kids, h, fee, script)))
  {
    var l' := FinalizeKinder(l, h, SweepTx(kids, h, fee, script));
    if kids != [] {
      SweepSpendsClass(l, h, kids, fee, script);
    }
    assert forall g :: KnownOps(l', g) == KnownOps(l, g);
  }

  lemma GraduateKeepsExact(l: Ledger, h: nat)
    requires Exact(l)
    ensures Exact(GraduateKinder(l, h))
  {
    var l' := GraduateKinder(l, h);
    forall g | g in l'.finalTxs
      ensures KnownOps(l', g) == KnownOps(l, g)
    {
      assert forall x :: KndrAt(l', x, g) <==> KndrAt(l, x, g);
    }
  }

  /** Kindergarten and graduated outputs are the same, but for removed graduates. */
  predicate SameWhenLate(l: Ledger, l': Ledger, id: Id) {
    && (id in l'.stages && (l'.stages[id].Kndr? || l'.stages[id].Grad?) ==>
          id in l.stages && l.stages[id] == l'.stages[id])
    && (id in l.stages && l.stages[id].Kndr? ==> id in l'.stages && l'.stages[id] == l.stages[id])
  }

  lemma SameKinderExact(l: Ledger, l': Ledger)
    requires Exact(l) && l'.finalTxs == l.finalTxs
    requires forall id :: SameWhenLate(l, l', id)
    ensures Exact(l')
  {
    forall g | g in l'.finalTxs
      ensures KnownOps(l', g) == KnownOps(l, g)
    {
      forall x
        ensures KndrAt(l', x, g) <==> KndrAt(l, x, g)
        ensures KndrAt(l, x, g) ==> l'.stages[x] == l.stages[x]
      {
        assert SameWhenLate(l, l', x);
      }
    }
  }

  lemma SameKinderMatched(s: Sys, l': Ledger)
    requires Matched(s) && l' == s.l.(stages := l'.stages)
    requires forall id :: SameWhenLate(s.l, l', id)
    ensures Matched(s.(l := l'))
  {
    SameKinderExact(s.l, l');
    forall id | id in l'.stages && (l'.stages[id].Kndr? || l'.stages[id].Grad?)
      ensures id in s.l.stages && s.l.stages[id] == l'.stages[id]
    {
      assert SameWhenLate(s.l, l', id);
    }
  }

  lemma SameKinderCovered(l: Ledger, l': Ledger)
    requires Covered(l) && l' == l.(stages := l'.stages)
    requires forall id :: SameWhenLate(l, l', id)
    ensures Covered(l')
  {
    forall id | id in l'.stages && l'.stages[id].Kndr?
      ensures id in l.stages && l.stages[id] == l'.stages[id]
    {
      assert SameWhenLate(l, l', id);
    }
  }

  /****** 2a. Nothing is swept early: every run ******/

  lemma ArrivalOnTime(s: Sys, e: Event)
    requires OnTime(s) && Enabled(s, e) && (e.PreschoolConf? || e.TimeoutConf?)
    ensures OnTime(Next(s, e))
  {
    assert Placed(s.l.stages[e.id]);
    if e.PreschoolConf? {
      PreschoolToKinderSound(s.l, Confirmed(KidOf(s.l.stages[e.id]), e.confHeight));
    } else {
      var baby := s.l.stages[e.id].baby;
      CribToKinderSound(s.l, baby.(kid := Confirmed(baby.kid, e.confHeight)));
    }
  }

  lemma FinalizeOnTime(s: Sys, h: nat, kids: seq<Kid>, fee: int, script: seq<byte>)
    requires OnTime(s) && Enabled(s, Finalize(h, kids, fee, script))
    ensures OnTime(Next(s, Finalize(h, kids, fee, script)))
  {
    ClassIsScheduled(s.l, h, kids);
    FinalizeCoherentIff(s.l, h, SweepTx(kids, h, fee, script));
    SweepMeetsLocks(s.l, h, kids, fee, script);
  }

  lemma StepKeepsOnTime(s: Sys, e: Event)
    requires OnTime(s) && Enabled(s, e) && WellFed(s, e)
    ensures OnTime(Next(s, e))
  {
    match e
    case IncubateOutputs(kids, babies) =>
      PreschoolsSound(s.l, kids);
      CribsSound(EnterPreschools(s.l, kids), babies);
    case PreschoolConf(_, _) => ArrivalOnTime(s, e);
    case TimeoutConf(_, _) => ArrivalOnTime(s, e);
    case Finalize(h, kids, fee, script) => FinalizeOnTime(s, h, kids, fee, script);
    case SweepConf(w) => GraduateKinderSound(s.l, w.height);
    case RemoveMature(c) => RemoveChannelSound(s.l, c);
    case MarkGraduated => assert forall g :: Class(Next(s, e).l, g) == Class(s.l, g);
    case _ => assert Next(s, e).l == s.l;
  }

  ghost predicate AllWellFed(s: Sys, es: seq<Event>)
    decreases |es|
  {
    es == [] || (WellFed(s, es[0]) && AllWellFed(Next(s, es[0]), es[1..]))
  }

  lemma {:induction false} RunKeepsOnTime(s: Sys, es: seq<Event>)
    requires OnTime(s) && Legal(s, es) && AllWellFed(s, es)
    ensures OnTime(Exec(s, es))
    decreases |es|
  {
    if es != [] {
      StepKeepsOnTime(s, es[0]);
      RunKeepsOnTime(Next(s, es[0]), es[1..]);
    }
  }

  /**
    In every run, whatever is skipped, late, repeated or aborted: no kindergarten output is scheduled
    before its lock has passed, and every sweep ever finalized meets the locks of all its inputs.
  */
  lemma NothingSweptEarly(l: Ledger, s: Sys, es: seq<Event>)
    requires Started(l, s) && Legal(s, es) && AllWellFed(s, es)
    ensures Sound(Exec(s, es).l) && NeverEarly(Exec(s, es))
  {
    assert OnTime(s);
    RunKeepsOnTime(s, es);
  }

  /****** 2b. What graduates was swept: runs with timely arrivals ******/

  lemma ArrivalMatched(s: Sys, id: Id, kid: Kid, h: nat)
    requires SweepInv(s) && TxsLive(s.l) && Matched(s) && h > s.l.lastFinalized
    requires id in s.l.stages && !s.l.stages[id].Kndr?
    ensures Matched(s.(l := s.l.(stages := s.l.stages[id := Kndr(kid, h)])))
  {
    ArrivalKeepsExact(s.l, id, kid, h);
  }

  lemma FinalizeMatched(s: Sys, h: nat, kids: seq<Kid>, fee: int, script: seq<byte>)
    requires SweepInv(s) && Matched(s) && Enabled(s, Finalize(h, kids, fee, script))
    ensures Matched(Next(s, Finalize(h, kids, fee, script)))
  {
    ClassIsScheduled(s.l, h, kids);
    FinalizeKeepsExact(s.l, h, kids, fee, script);
  }

  /** The class that a confirmed sweep graduates is the class it spent. */
  lemma SweepConfMatched(s: Sys, w: Sweep)
    requires SweepInv(s) && Matched(s) && w in s.waiters
    ensures Matched(Next(s, SweepConf(w)))
  {
    GraduateKeepsExact(s.l, w.height);
    assert Recorded(s, w);
    forall op | op in KnownOps(s.l, w.height)
      ensures op in Prevouts(w.tx)
    {
      assert w.height in s.l.finalTxs;
      assert Recorded(s, Sweep(w.height, s.l.finalTxs[w.height]));
    }
    SweepConfSweptIff(s, w);
  }

  /** A confirmed sweep leaves nothing in its class that has not been spent. */
  ghost predicate ClassSpent(s: Sys, e: Event) {
    e.SweepConf? ==> KnownOps(s.l, e.sweep.height) <= Prevouts(e.sweep.tx) + SpentOps(s.confirmed)
  }

  /** One step leaves every graduate swept if and only if the sweep that confirms has spent its whole class. */
  lemma StepSweptIff(s: Sys, e: Event)
    requires GraduatesSwept(s) && Enabled(s, e)
    ensures GraduatesSwept(Next(s, e)) <==> ClassSpent(s, e)
  {
    match e
    case IncubateOutputs(kids, babies) => IncubateOnlyAdds(s.l, kids, babies);
    case SweepConf(w) => SweepConfSweptIff(s, w);
    case _ =>
  }

  lemma SweepConfSweptIff(s: Sys, w: Sweep)
    requires GraduatesSwept(s)
    ensures GraduatesSwept(Next(s, SweepConf(w))) <==> ClassSpent(s, SweepConf(w))
  {
    var s' := Next(s, SweepConf(w));
    assert SpentOps(s'.confirmed) == SpentOps(s.confirmed) + Prevouts(w.tx) by {
      forall op | op in SpentOps(s.confirmed) + Prevouts(w.tx)
        ensures op in SpentOps(s'.confirmed)
      {
        if op in Prevouts(w.tx) {
          assert w.tx in s'.confirmed;
        } else {
          var tx :| tx in s.confirmed && op in Prevouts(tx);
          assert tx in s'.confirmed;
        }
      }
    }
    if GraduatesSwept(s') {
      forall op | op in KnownOps(s.l, w.height)
        ensures op in Prevouts(w.tx) + SpentOps(s.confirmed)
      {
        var id :| id in s.l.stages && KndrAt(s.l, id, w.height) && Known(s.l.stages[id].kid.witnessType) && id.op == op;
        assert s'.l.stages[id].Grad?;
      }
    }
    if ClassSpent(s, SweepConf(w)) {
      forall id | id in s'.l.stages && s'.l.stages[id].Grad? && Known(s'.l.stages[id].kid.witnessType)
        ensures id.op in SpentOps(s'.confirmed)
      {
        if !s.l.stages[id].Grad? {
          assert id.op in KnownOps(s.l, w.height);
        }
      }
    }
  }

  predicate Arrival(s: Sys, e: Event) {
    (e.PreschoolConf? || e.TimeoutConf?) && e.id in s.l.stages && (e.TimeoutConf? ==> s.l.stages[e.id].Crib?)
  }

  /** The record that a confirmation files in kindergarten. */
  function Arriving(s: Sys, e: Event): Kid
    requires Arrival(s, e)
  {
    Confirmed(KidOf(s.l.stages[e.id]), e.confHeight)
  }

  /** And its height: only a preschool output is bumped when it comes late. */
  function ArrivalHeight(s: Sys, e: Event): nat
    requires Arrival(s, e)
  {
    if e.PreschoolConf? then PreschoolTarget(s.l, Arriving(s, e)) else e.confHeight + Arriving(s, e).blocksToMaturity
  }

  lemma ArrivalShape(s: Sys, e: Event)
    requires Named(s.l) && Arrival(s, e)
    ensures IdOf(Arriving(s, e)) == e.id
    ensures Next(s, e) == s.(l := s.l.(stages := s.l.stages[e.id := Kndr(Arriving(s, e), ArrivalHeight(s, e))]))
  {
  }

  lemma ConfMatched(s: Sys, e: Event)
    requires SweepInv(s) && OnTime(s) && Matched(s) && Enabled(s, e) && Arrival(s, e)
    requires ArrivalHeight(s, e) > s.l.lastFinalized
    ensures Matched(Next(s, e))
  {
    ArrivalShape(s, e);
    ArrivalMatched(s, e.id, Arriving(s, e), ArrivalHeight(s, e));
  }

  lemma QuietMatched(s: Sys, e: Event)
    requires Matched(s) && Enabled(s, e)
    requires !e.IncubateOutputs? && !e.PreschoolConf? && !e.TimeoutConf? && !e.Finalize? && !e.SweepConf?
    ensures Matched(Next(s, e))
  {
    var s' := Next(s, e);
    assert s'.finalized == s.finalized && s'.confirmed == s.confirmed;
    if e.RemoveMature? {
      SameKinderMatched(s, RemoveChannel(s.l, e.chan));
    } else {
      assert s'.l.stages == s.l.stages && s'.l.finalTxs == s.l.finalTxs;
      assert forall g :: KnownOps(s'.l, g) == KnownOps(s.l, g);
    }
  }

  lemma StepKeepsMatched(s: Sys, e: Event)
    requires SweepInv(s) && OnTime(s) && Matched(s) && Enabled(s, e) && Timely(s, e)
    ensures Matched(Next(s, e))
  {
    match e
    case IncubateOutputs(kids, babies) =>
      IncubateOnlyAdds(s.l, kids, babies);
      SameKinderMatched(s, Incubate(s.l, kids, babies));
    case PreschoolConf(_, _) => ConfMatched(s, e);
    case TimeoutConf(_, _) => ConfMatched(s, e);
    case Finalize(h, kids, fee, script) => FinalizeMatched(s, h, kids, fee, script);
    case SweepConf(w) => SweepConfMatched(s, w);
    case _ => QuietMatched(s, e);
  }

  ghost predicate AllTimely(s: Sys, es: seq<Event>)
    decreases |es|
  {
    es == [] || (Timely(s, es[0]) && AllTimely(Next(s, es[0]), es[1..]))
  }

  lemma {:induction false} RunKeepsMatched(s: Sys, es: seq<Event>)
    requires SweepInv(s) && OnTime(s) && Matched(s) && Legal(s, es) && AllTimely(s, es)
    ensures OnTime(Exec(s, es)) && Matched(Exec(s, es))
    decreases |es|
  {
    if es != [] {
      StepKeepsSweepInv(s, es[0]);
      StepKeepsOnTime(s, es[0]);
      StepKeepsMatched(s, es[0]);
      RunKeepsMatched(Next(s, es[0]), es[1..]);
    }
  }

  /**
    In every run whose confirmations file their outputs above the last finalized height, with any
    skipped heights, failures and crashes: a stored sweep spends exactly the outputs of known type
    in its class, and every graduated output of known type was spent by a confirmed sweep.
  */
  lemma GraduatesAreSwept(l: Ledger, s: Sys, es: seq<Event>)
    requires Started(l, s) && Legal(s, es) && AllTimely(s, es)
    ensures Exact(Exec(s, es).l) && GraduatesSwept(Exec(s, es))
  {
    RunKeepsMatched(s, es);
  }

  ghost predicate AlwaysSwept(s: Sys, es: seq<Event>)
    decreases |es|
  {
    GraduatesSwept(s) && (es == [] || AlwaysSwept(Next(s, es[0]), es[1..]))
  }

  ghost predicate AllClassesSpent(s: Sys, es: seq<Event>)
    decreases |es|
  {
    es == [] || (ClassSpent(s, es[0]) && AllClassesSpent(Next(s, es[0]), es[1..]))
  }

  lemma {:induction false} RunSweptIff(s: Sys, es: seq<Event>)
    requires GraduatesSwept(s) && Legal(s, es)
    ensures AlwaysSwept(s, es) <==> AllClassesSpent(s, es)
    decreases |es|
  {
    if es != [] {
      StepSweptIff(s, es[0]);
      if ClassSpent(s, es[0]) {
        RunSweptIff(Next(s, es[0]), es[1..]);
      } else {
        assert !AlwaysSwept(Next(s, es[0]), es[1..]);
      }
    }
  }

  /**
    The exact condition: in a run no output ever graduates unswept if and only if every sweep that
    confirms has by then spent, or other sweeps have, all the outputs of known type at its height.
  */
  lemma GraduatesAreSweptIff(l: Ledger, s: Sys, es: seq<Event>)
    requires Started(l, s) && Legal(s, es)
    ensures AlwaysSwept(s, es) <==> AllClassesSpent(s, es)
  {
    RunSweptIff(s, es);
  }

  /****** 2c. Nothing is forgotten: disciplined runs ******/

  lemma ArrivalKeepsCovered(l: Ledger, id: Id, kid: Kid, h: nat)
    requires Covered(l) && h > l.lastFinalized
    ensures Covered(l.(stages := l.stages[id := Kndr(kid, h)]))
  {
    var l' := l.(stages := l.stages[id := Kndr(kid, h)]);
    forall x | x in l'.stages && x != id
      ensures x in l.stages && l'.stages[x] == l.stages[x]
    {
    }
  }

  lemma ConfCovered(s: Sys, e: Event)
    requires Sound(s.l) && Covered(s.l) && Arrival(s, e) && ArrivalHeight(s, e) > s.l.lastFinalized
    ensures Covered(Next(s, e).l)
  {
    ArrivalShape(s, e);
    ArrivalKeepsCovered(s.l, e.id, Arriving(s, e), ArrivalHeight(s, e));
  }

  lemma IncubateCovered(l: Ledger, kids: seq<Kid>, babies: seq<Baby>)
    requires Covered(l)
    ensures Covered(Incubate(l, kids, babies))
  {
    IncubateOnlyAdds(l, kids, babies);
    SameKinderCovered(l, Incubate(l, kids, babies));
  }

  lemma GraduateCovered(l: Ledger, h: nat)
    requires Covered(l)
    ensures Covered(GraduateKinder(l, h))
  {
    var l' := GraduateKinder(l, h);
    forall id | id in l'.stages && l'.stages[id].Kndr?
      ensures id in l.stages && l.stages[id] == l'.stages[id] && l'.stages[id].height != h
    {
    }
  }

  lemma StepKeepsCovered(s: Sys, e: Event)
    requires Sound(s.l) && Covered(s.l) && Enabled(s, e) && Disciplined(s, e)
    ensures Covered(Next(s, e).l)
  {
    match e
    case IncubateOutputs(kids, babies) => IncubateCovered(s.l, kids, babies);
    case PreschoolConf(_, _) => ConfCovered(s, e);
    case TimeoutConf(_, _) => ConfCovered(s, e);
    case Finalize(h, kids, fee, script) => FinalizeCoveredIff(s.l, h, kids, fee, script);
    case RemoveMature(c) => SameKinderCovered(s.l, RemoveChannel(s.l, c));
    case SweepConf(w) => GraduateCovered(s.l, w.height);
    case _ => assert Next(s, e).l.stages == s.l.stages;
  }

  lemma StepKeepsInv(s: Sys, e: Event)
    requires Inv(s) && Enabled(s, e) && Disciplined(s, e)
    ensures Inv(Next(s, e))
  {
    StepKeepsSweepInv(s, e);
    StepKeepsOnTime(s, e);
    StepKeepsMatched(s, e);
    StepKeepsCovered(s, e);
  }

  ghost predicate AllDisciplined(s: Sys, es: seq<Event>)
    decreases |es|
  {
    es == [] || (Disciplined(s, es[0]) && AllDisciplined(Next(s, es[0]), es[1..]))
  }

  lemma {:induction false} RunKeepsInv(s: Sys, es: seq<Event>)
    requires Inv(s) && Legal(s, es) && AllDisciplined(s, es)
    ensures Inv(Exec(s, es))
    decreases |es|
  {
    if es != [] {
      StepKeepsInv(s, es[0]);
      RunKeepsInv(Next(s, es[0]), es[1..]);
    }
  }

  /****** 3. The exact condition ******/

  /** What holds of everything that IncubateOutputs builds. */
  ghost predicate KnownInput(e: Event) {
    e.IncubateOutputs? ==>
      && (forall kid <- e.kids :: Known(kid.witnessType))
      && (forall baby <- e.babies :: Known(baby.kid.witnessType))
  }

  ghost predicate AllKnown(l: Ledger) {
    forall id <- l.stages :: Known(KidOf(l.stages[id]).witnessType)
  }

  lemma {:induction false} PreschoolsKnown(l: Ledger, kids: seq<Kid>)
    requires AllKnown(l) && forall kid <- kids :: Known(kid.witnessType)
    ensures AllKnown(EnterPreschools(l, kids))
    decreases |kids|
  {
    if kids != [] {
      PreschoolsKnown(l, kids[..|kids| - 1]);
    }
  }

  lemma {:induction false} CribsKnown(l: Ledger, babies: seq<Baby>)
    requires AllKnown(l) && forall baby <- babies :: Known(baby.kid.witnessType)
    ensures AllKnown(EnterCribs(l, babies))
    decreases |babies|
  {
    if babies != [] {
      CribsKnown(l, babies[..|babies| - 1]);
    }
  }

  lemma StepKeepsKnown(s: Sys, e: Event)
    requires AllKnown(s.l) && Enabled(s, e) && KnownInput(e)
    ensures AllKnown(Next(s, e).l)
  {
    if e.IncubateOutputs? {
      PreschoolsKnown(s.l, e.kids);
      CribsKnown(EnterPreschools(s.l, e.kids), e.babies);
    }
  }

  /** Incubated outputs are of known types and belong to one channel each. */
  ghost predicate AllOwned(s: Sys, es: seq<Event>)
    decreases |es|
  {
    es == [] || (Owned(s, es[0]) && AllOwned(Next(s, es[0]), es[1..]))
  }

  ghost predicate Owned(s: Sys, e: Event) {
    KnownInput(e) && WellFed(s, e)
  }

  /** One step leaves every output covered if and only if it is disciplined. */
  lemma StepCoveredIff(s: Sys, e: Event)
    requires Inv(s) && AllKnown(s.l) && Enabled(s, e) && Owned(s, e)
    ensures Covered(Next(s, e).l) <==> Disciplined(s, e)
  {
    if Disciplined(s, e) {
      StepKeepsInv(s, e);
    } else {
      if e.Finalize? {
        FinalizeCoveredIff(s.l, e.height, e.kids, e.fee, e.script);
      } else {
        ArrivalShape(s, e);
        ArrivalCoveredIff(s.l, e.id, Arriving(s, e), ArrivalHeight(s, e));
      }
    }
  }

  ghost predicate AlwaysCovered(s: Sys, es: seq<Event>)
    decreases |es|
  {
    Covered(s.l) && (es == [] || AlwaysCovered(Next(s, es[0]), es[1..]))
  }

  lemma {:induction false} RunCoveredIff(s: Sys, es: seq<Event>)
    requires Inv(s) && AllKnown(s.l) && Legal(s, es) && AllOwned(s, es)
    ensures AlwaysCovered(s, es) <==> AllDisciplined(s, es)
    decreases |es|
  {
    if es != [] {
      StepCoveredIff(s, es[0]);
      if Disciplined(s, es[0]) {
        StepKeepsInv(s, es[0]);
        StepKeepsKnown(s, es[0]);
        RunCoveredIff(Next(s, es[0]), es[1..]);
      } else {
        assert !AlwaysCovered(Next(s, es[0]), es[1..]);
      }
    }
  }

  /**
    A run never forgets an output if and only if every step is disciplined: each confirmation files
    its output above the last finalized height, and no height with a due output is passed over.
  */
  lemma NothingForgottenIff(l: Ledger, s: Sys, es: seq<Event>)
    requires Started(l, s) && Legal(s, es) && AllOwned(s, es)
    ensures AlwaysCovered(s, es) <==> AllDisciplined(s, es)
  {
    assert Inv(s);
    RunCoveredIff(s, es);
  }

  lemma {:induction false} RunKnown(s: Sys, es: seq<Event>)
    requires AllKnown(s.l) && Legal(s, es) && AllOwned(s, es)
    ensures AllKnown(Exec(s, es).l)
    decreases |es|
  {
    if es != [] {
      StepKeepsKnown(s, es[0]);
      RunKnown(Next(s, es[0]), es[1..]);
    }
  }

  /** With timely arrivals a stored sweep spends its whole class, so graduation moves exactly what it spends. */
  lemma WholeClassIsSwept(l: Ledger, s: Sys, es: seq<Event>, h: nat)
    requires Started(l, s) && Legal(s, es) && AllOwned(s, es) && AllTimely(s, es) && h in Exec(s, es).l.finalTxs
    ensures var l' := Exec(s, es).l; (set id | id in Class(l', h) :: id.op) == Prevouts(l'.finalTxs[h])
  {
    RunKeepsMatched(s, es);
    RunKnown(s, es);
    var l' := Exec(s, es).l;
    assert forall id <- Class(l', h) :: KidOf(l'.stages[id]) == l'.stages[id].kid;
    GraduatesExactlySweptIff(l', h);
  }

  /****** 4. What is lost stays lost ******/

  /** A kindergarten output at a height that was finalized without a sweep. */
  ghost predicate Stranded(s: Sys, id: Id, h: nat) {
    && KndrAt(s.l, id, h) && h <= s.l.lastFinalized && h !in s.l.finalTxs
    && (h in s.finalized ==> s.finalized[h].None?)
  }

  lemma StrandedStep(s: Sys, e: Event, id: Id, h: nat)
    requires SweepInv(s) && Named(s.l) && Stranded(s, id, h) && Enabled(s, e)
    ensures Stranded(Next(s, e), id, h) && Named(Next(s, e).l)
  {
    match e
    case IncubateOutputs(kids, babies) =>
      IncubateOnlyAdds(s.l, kids, babies);
      PreschoolsNamed(s.l, kids);
      CribsNamed(EnterPreschools(s.l, kids), babies);
    case SweepConf(w) => assert Recorded(s, w);
    case RemoveMature(c) => assert id.chan == c ==> id in ChannelIds(s.l, c);
    case _ =>
  }

  /** Records are stored under their own names. */
  ghost predicate Named(l: Ledger) {
    forall id <- l.stages :: IdOf(KidOf(l.stages[id])) == id
  }

  lemma {:induction false} PreschoolsNamed(l: Ledger, kids: seq<Kid>)
    requires Named(l)
    ensures Named(EnterPreschools(l, kids))
    decreases |kids|
  {
    if kids != [] {
      PreschoolsNamed(l, kids[..|kids| - 1]);
    }
  }

  lemma {:induction false} CribsNamed(l: Ledger, babies: seq<Baby>)
    requires Named(l)
    ensures Named(EnterCribs(l, babies))
    decreases |babies|
  {
    if babies != [] {
      CribsNamed(l, babies[..|babies| - 1]);
    }
  }

  /** Whatever happens afterwards, it stays in kindergarten and no sweep is ever stored for it. */
  lemma {:induction false} StrandedForGood(s: Sys, es: seq<Event>, id: Id, h: nat)
    requires SweepInv(s) && Named(s.l) && Stranded(s, id, h) && Legal(s, es)
    ensures Stranded(Exec(s, es), id, h) && forall w <- Exec(s, es).published :: w.height != h
    decreases |es|
  {
    assert forall w <- s.published :: Recorded(s, w);
    if es != [] {
      StrandedStep(s, es[0], id, h);
      StepKeepsSweepInv(s, es[0]);
      StrandedForGood(Next(s, es[0]), es[1..], id, h);
    }
  }

  /** In every disciplined run, with crashes anywhere, each output is still to come or spent by its stored sweep. */
  lemma NothingForgotten(l: Ledger, s: Sys, es: seq<Event>)
    requires Started(l, s) && Legal(s, es) && AllDisciplined(s, es)
    ensures Covered(Exec(s, es).l)
  {
    assert Inv(s);
    RunKeepsInv(s, es);
  }

  /** What graduates is exactly what the stored sweep spends, if and only if the class has no unknown witness type. */
  lemma GraduatesExactlySweptIff(l: Ledger, h: nat)
    requires Sound(l) && Exact(l) && h in l.finalTxs
    ensures (set id | id in Class(l, h) :: id.op) == Prevouts(l.finalTxs[h])
            <==> forall id <- Class(l, h) :: Known(l.stages[id].kid.witnessType)
  {
    var ops := set id | id in Class(l, h) :: id.op;
    if id :| id in Class(l, h) && !Known(l.stages[id].kid.witnessType) {
      assert id.op in ops;
      assert id.op !in KnownOps(l, h);
    } else {
      assert forall id <- l.stages :: KndrAt(l, id, h) <==> id in Class(l, h);
      assert ops == KnownOps(l, h);
    }
  }
}
