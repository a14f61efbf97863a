/**
  When every due sweep has also been broadcast: the exact condition on a run, that blocks arriving
  one by one meet it, and concrete runs in which an output is lost.
*/
module NurserySchedule {
  import opened Chain
  import opened NurseryLedger
  import opened NurserySweep
  import opened NurseryRun

  /** Every sweep finalized up to `h` has been broadcast. */
  ghost predicate SentUpTo(s: Sys, h: nat) {
    forall g <- s.finalized | g <= h && s.finalized[g].Some? :: Sweep(g, s.finalized[g].value) in s.published
  }

  /** No output is forgotten, and every sweep at or below the last graduated height has been broadcast. */
  ghost predicate Handled(s: Sys) {
    Covered(s.l) && SentUpTo(s, s.l.lastGraduated)
  }

  /** Disciplined, and a height is marked graduated only when nothing below it was left unsent. */
  ghost predicate Orderly(s: Sys, e: Event) {
    Disciplined(s, e) && (e.MarkGraduated? && s.pc.Swept? ==> SentUpTo(s, s.pc.height))
  }

  ghost predicate AllOrderly(s: Sys, es: seq<Event>)
    decreases |es|
  {
    es == [] || (Orderly(s, es[0]) && AllOrderly(Next(s, es[0]), es[1..]))
  }

  /** Stored or broadcast: what is finalized cannot get lost, and only broadcast sweeps are watched. */
  ghost predicate Broadcast(s: Sys) {
    && s.l.lastGraduated <= s.l.lastFinalized
    && SentUpTo(s, s.l.lastGraduated)
    && (s.pc.Sweeping? || s.pc.Swept? ==> s.pc.height <= s.l.lastFinalized)
    && (s.pc.Swept? && s.pc.height in s.finalized && s.finalized[s.pc.height].Some? ==>
          Sweep(s.pc.height, s.finalized[s.pc.height].value) in s.published)
    && (forall h <- s.finalized | s.finalized[h].Some? ::
          h in s.l.finalTxs || Sweep(h, s.finalized[h].value) in s.published)
    && s.waiters <= s.published
  }

  lemma StepKeepsBroadcast(s: Sys, e: Event)
    requires SweepInv(s) && Broadcast(s) && Enabled(s, e)
    requires e.MarkGraduated? ==> SentUpTo(s, s.pc.height)
    ensures Broadcast(Next(s, e))
  {
    match e
    case IncubateOutputs(kids, babies) => IncubateOnlyAdds(s.l, kids, babies);
    case Finalize(h, kids, _, _) => ClassIsScheduled(s.l, h, kids);
    case Restart => RewatchedSent(s);
    case _ =>
  }

  lemma RewatchedSent(s: Sys)
    requires SweepInv(s) && SentUpTo(s, s.l.lastGraduated)
    ensures Rewatched(s.l) <= s.published
  {
    forall w | w in Rewatched(s.l)
      ensures w in s.published
    {
      assert Recorded(s, w);
    }
  }

  /** One step leaves everything handled if and only if it is orderly. */
  lemma StepHandledIff(s: Sys, e: Event)
    requires Inv(s) && Broadcast(s) && AllKnown(s.l) && Enabled(s, e) && Owned(s, e)
    ensures Handled(Next(s, e)) <==> Orderly(s, e)
  {
    StepCoveredIff(s, e);
    if !e.MarkGraduated? {
      StepKeepsBroadcast(s, e);
    }
  }

  ghost predicate AlwaysHandled(s: Sys, es: seq<Event>)
    decreases |es|
  {
    Handled(s) && (es == [] || AlwaysHandled(Next(s, es[0]), es[1..]))
  }

  lemma {:induction false} RunHandledIff(s: Sys, es: seq<Event>)
    requires Inv(s) && Broadcast(s) && AllKnown(s.l) && Legal(s, es) && AllOwned(s, es)
    ensures AlwaysHandled(s, es) <==> AllOrderly(s, es)
    ensures AllOrderly(s, es) ==> Inv(Exec(s, es)) && Broadcast(Exec(s, es))
    decreases |es|
  {
    if es != [] {
      var e := es[0];
      StepHandledIff(s, e);
      if Orderly(s, e) {
        StepKeepsInv(s, e);
        StepKeepsKnown(s, e);
        StepKeepsBroadcast(s, e);
        RunHandledIff(Next(s, e), es[1..]);
      } else {
        assert !AlwaysHandled(Next(s, e), es[1..]);
      }
    }
  }

  /**
    The exact condition, for any block heights, failures and crashes: a run always has every due
    output spent by a stored sweep and every due sweep broadcast if and only if it is orderly.
  */
  lemma HandledIff(l: Ledger, s: Sys, es: seq<Event>)
    requires Started(l, s) && l.lastGraduated <= l.lastFinalized && Legal(s, es) && AllOwned(s, es)
    ensures AlwaysHandled(s, es) <==> AllOrderly(s, es)
    ensures AlwaysHandled(s, es) <==> AllDisciplined(s, es) && MarksInOrder(es)
  {
    RunHandledIff(s, es);
    OrderlyIff(l, s, es);
  }

  /** The kindergarten output `id` is due: its height has graduated. */
  predicate Due(l: Ledger, id: Id) {
    && id in l.stages && l.stages[id].Kndr? && Known(l.stages[id].kid.witnessType)
    && l.stages[id].height <= l.lastGraduated
  }

  /** Its sweep is stored, spends it, has been broadcast, and will be watched again after a restart. */
  ghost predicate SweepInHand(s: Sys, id: Id)
    requires Due(s.l, id)
  {
    var h := s.l.stages[id].height;
    && h in s.l.finalTxs && Spends(s.l.finalTxs[h], id.op)
    && Sweep(h, s.l.finalTxs[h]) in s.published
    && Sweep(h, s.l.finalTxs[h]) in Next(s, Restart).waiters
  }

  /**
    In every orderly run, with crashes anywhere, an output still in kindergarten is scheduled above
    the last graduated height, or the one sweep stored for its height spends it and has been
    broadcast; and a restart registers for that sweep's confirmation again.
  */
  lemma DueOutputsAreSwept(l: Ledger, s: Sys, es: seq<Event>)
    requires Started(l, s) && l.lastGraduated <= l.lastFinalized
    requires Legal(s, es) && AllOwned(s, es) && AllOrderly(s, es)
    ensures forall id | Due(Exec(s, es).l, id) :: SweepInHand(Exec(s, es), id)
  {
    RunHandledIff(s, es);
    var s' := Exec(s, es);
    forall id | Due(s'.l, id)
      ensures SweepInHand(s', id)
    {
      DueIsSwept(s', id);
    }
  }

  lemma DueIsSwept(s: Sys, id: Id)
    requires SweepInv(s) && Covered(s.l) && Broadcast(s) && Due(s.l, id)
    ensures SweepInHand(s, id)
  {
    var h := s.l.stages[id].height;
    assert h in s.l.finalTxs;
    assert Recorded(s, Sweep(h, s.l.finalTxs[h]));
  }

  /****** Blocks that arrive one by one ******/

  /**
    Each block handled is the one after the last graduated height, and confirmations are filed only
    while no height is half done. A failed graduateClass may be tried again at its own height.
  */
  ghost predicate Consecutive(s: Sys, e: Event) {
    match e
    case IncubateOutputs(kids, babies) => WellOwned(s.l, kids, babies)
    case PreschoolConf(_, _) => s.l.lastFinalized <= s.l.lastGraduated
    case TimeoutConf(id, conf) =>
      && s.l.lastFinalized <= s.l.lastGraduated
      && (id in s.l.stages ==> conf + KidOf(s.l.stages[id]).blocksToMaturity > s.l.lastGraduated)
    case Finalize(h, _, _, _) => h == s.l.lastGraduated + 1
    case Replay(h) => h == s.l.lastGraduated + 1
    case _ => true
  }

  ghost predicate AllConsecutive(s: Sys, es: seq<Event>)
    decreases |es|
  {
    es == [] || (Consecutive(s, es[0]) && AllConsecutive(Next(s, es[0]), es[1..]))
  }

  /** The two marks are never more than one apart, and they differ only while a height is half done. */
  ghost predicate InStep(s: Sys) {
    && s.l.lastGraduated <= s.l.lastFinalized <= s.l.lastGraduated + 1
    && (s.pc.Sweeping? || s.pc.Swept? ==> s.pc.height == s.l.lastFinalized == s.l.lastGraduated + 1)
  }

  lemma StepKeepsInStep(s: Sys, e: Event)
    requires InStep(s) && Enabled(s, e) && Consecutive(s, e)
    ensures InStep(Next(s, e))
  {
    if e.IncubateOutputs? {
      IncubateOnlyAdds(s.l, e.kids, e.babies);
    }
  }

  lemma ConsecutiveStepIsOrderly(s: Sys, e: Event)
    requires InStep(s) && Broadcast(s) && Enabled(s, e) && Consecutive(s, e)
    ensures Orderly(s, e)
  {
    if e.MarkGraduated? {
      forall g | g in s.finalized && g <= s.pc.height && s.finalized[g].Some?
        ensures Sweep(g, s.finalized[g].value) in s.published
      {
        assert g <= s.l.lastGraduated || g == s.pc.height;
      }
    }
  }

  lemma {:induction false} RunInStep(s: Sys, es: seq<Event>)
    requires Inv(s) && InStep(s) && Broadcast(s) && Legal(s, es) && AllConsecutive(s, es)
    ensures AllOrderly(s, es) && InStep(Exec(s, es))
    decreases |es|
  {
    if es != [] {
      var e := es[0];
      ConsecutiveStepIsOrderly(s, e);
      StepKeepsInv(s, e);
      StepKeepsInStep(s, e);
      StepKeepsBroadcast(s, e);
      RunInStep(Next(s, e), es[1..]);
    }
  }

  /** Consecutive blocks make an orderly run, whatever fails and wherever the process dies. */
  lemma ConsecutiveIsOrderly(l: Ledger, s: Sys, es: seq<Event>)
    requires Started(l, s) && l.lastFinalized == l.lastGraduated
    requires Legal(s, es) && AllConsecutive(s, es)
    ensures AllOrderly(s, es)
    ensures Exec(s, es).l.lastGraduated <= Exec(s, es).l.lastFinalized <= Exec(s, es).l.lastGraduated + 1
  {
    RunInStep(s, es);
  }

  /****** The condition in terms of events ******/

  lemma {:induction false} RunAppend(s: Sys, es: seq<Event>, fs: seq<Event>)
    ensures Exec(s, es + fs) == Exec(Exec(s, es), fs)
    ensures Legal(s, es + fs) <==> Legal(s, es) && Legal(Exec(s, es), fs)
    ensures AllConsecutive(s, es + fs) <==> AllConsecutive(s, es) && AllConsecutive(Exec(s, es), fs)
    decreases |es|
  {
    if es == [] {
      assert es + fs == fs;
    } else {
      assert (es + fs)[1..] == es[1..] + fs;
      RunAppend(Next(s, es[0]), es[1..], fs);
    }
  }

  lemma RunSnoc(s: Sys, es: seq<Event>, e: Event)
    ensures Exec(s, es + [e]) == Next(Exec(s, es), e)
    ensures Legal(s, es + [e]) <==> Legal(s, es) && Enabled(Exec(s, es), e)
    ensures AllConsecutive(s, es + [e]) <==> AllConsecutive(s, es) && Consecutive(Exec(s, es), e)
  {
    RunAppend(s, es, [e]);
    var s1 := Exec(s, es);
    assert Exec(s1, [e]) == Exec(Next(s1, e), [e][1..]);
  }

  /** The event opens height `h`: it finalizes or replays it. */
  predicate OpensAt(e: Event, h: nat) {
    (e.Finalize? || e.Replay?) && e.height == h
  }

  predicate LastOpens(es: seq<Event>, h: nat) {
    es != [] && OpensAt(es[|es| - 1], h)
  }

  /** The last two events opened height `h` and broadcast its sweep, if it has one. */
  predicate LastSends(es: seq<Event>, h: nat) {
    es != [] && es[|es| - 1].Publish? && LastOpens(es[..|es| - 1], h)
  }

  /** Height `h` has been finalized with a nonempty class. */
  predicate FinalizedIn(es: seq<Event>, h: nat) {
    es != [] &&
    var e, rest := es[|es| - 1], es[..|es| - 1];
    (e.Finalize? && e.height == h && e.kids != []) || FinalizedIn(rest, h)
  }

  /** And no sweep of it has confirmed since. */
  predicate UnconfirmedIn(es: seq<Event>, h: nat) {
    es != [] &&
    var e, rest := es[|es| - 1], es[..|es| - 1];
    if e.Finalize? && e.height == h then e.kids != []
    else if e.SweepConf? && e.sweep.height == h then false
    else UnconfirmedIn(rest, h)
  }

  /** Some opening of `h`, after it was finalized and before its sweep confirmed, was followed by the broadcast. */
  predicate SentIn(es: seq<Event>, h: nat) {
    es != [] &&
    var e, rest := es[|es| - 1], es[..|es| - 1];
    SentIn(rest, h) || (e.Publish? && LastOpens(rest, h) && UnconfirmedIn(rest, h))
  }

  /** What the events say about `h` is what the system holds. */
  ghost predicate Tracks(es: seq<Event>, s: Sys, h: nat) {
    && (h in s.finalized && s.finalized[h].Some? <==> FinalizedIn(es, h))
    && (h in s.l.finalTxs <==> UnconfirmedIn(es, h))
    && (s.pc.Sweeping? && s.pc.height == h <==> LastOpens(es, h))
    && (s.pc.Swept? && s.pc.height == h <==> LastSends(es, h))
    && ((exists w <- s.published :: w.height == h) <==> SentIn(es, h))
  }

  lemma TrackStep(es: seq<Event>, s: Sys, e: Event, h: nat)
    requires SweepInv(s) && Tracks(es, s, h) && Enabled(s, e)
    ensures Tracks(es + [e], Next(s, e), h)
  {
    var all := es + [e];
    assert all[|all| - 1] == e && all[..|all| - 1] == es;
    match e
    case IncubateOutputs(kids, babies) => IncubateOnlyAdds(s.l, kids, babies);
    case Finalize(g, kids, _, _) =>
      ClassIsScheduled(s.l, g, kids);
      assert h == g ==> h !in s.finalized;
    case Publish => PublishTracks(es, s, h);
    case _ =>
  }

  lemma PublishTracks(es: seq<Event>, s: Sys, h: nat)
    requires SweepInv(s) && Tracks(es, s, h) && s.pc.Sweeping?
    ensures (exists w <- Next(s, Publish).published :: w.height == h) <==>
            SentIn(es, h) || (LastOpens(es, h) && UnconfirmedIn(es, h))
  {
    var s' := Next(s, Publish);
    if w :| w in s.published && w.height == h {
      assert w in s'.published;
    }
    if s.pc.height == h && s.pc.tx.Some? {
      assert Sweep(h, s.pc.tx.value) in s'.published;
    }
  }

  lemma {:induction false} RunTracks(l: Ledger, s: Sys, es: seq<Event>, h: nat)
    requires Started(l, s) && Legal(s, es)
    ensures Tracks(es, Exec(s, es), h)
    decreases |es|
  {
    if es != [] {
      var rest, e := es[..|es| - 1], es[|es| - 1];
      assert es == rest + [e];
      RunSnoc(s, rest, e);
      RunTracks(l, s, rest, h);
      RunKeepsSweepInv(s, rest);
      TrackStep(rest, Exec(s, rest), e, h);
    }
  }

  /** If `h` was finalized with a nonempty class, its sweep was sent. */
  predicate SentIfDue(es: seq<Event>, h: nat) {
    FinalizedIn(es, h) ==> SentIn(es, h)
  }

  ghost predicate SentAt(s: Sys, h: nat) {
    h in s.finalized && s.finalized[h].Some? ==> Sweep(h, s.finalized[h].value) in s.published
  }

  lemma SentAtIff(l: Ledger, s: Sys, es: seq<Event>, h: nat)
    requires Started(l, s) && Legal(s, es)
    ensures SentAt(Exec(s, es), h) <==> SentIfDue(es, h)
  {
    var s' := Exec(s, es);
    RunTracks(l, s, es, h);
    RunKeepsSweepInv(s, es);
    if FinalizedIn(es, h) && SentAt(s', h) {
      assert Sweep(h, s'.finalized[h].value).height == h;
    }
    if FinalizedIn(es, h) && SentIn(es, h) {
      var w :| w in s'.published && w.height == h;
      assert Recorded(s', w);
    }
  }

  /**
    In every run: all sweeps up to `h` have been broadcast if and only if each height up to `h` that
    was finalized with a nonempty class was opened, then or again before its sweep confirmed, by an
    attempt that went on to the broadcast.
  */
  lemma SentUpToIff(l: Ledger, s: Sys, es: seq<Event>, h: nat)
    requires Started(l, s) && Legal(s, es)
    ensures SentUpTo(Exec(s, es), h) <==> forall g: nat | g <= h :: SentIfDue(es, g)
  {
    var s' := Exec(s, es);
    forall g: nat
      ensures SentAt(s', g) <==> SentIfDue(es, g)
    {
      SentAtIff(l, s, es, g);
    }
    if SentUpTo(s', h) {
      forall g: nat | g <= h
        ensures SentIfDue(es, g)
      {
        assert SentAt(s', g);
      }
    }
    if forall g: nat | g <= h :: SentIfDue(es, g) {
      forall g | g in s'.finalized && g <= h && s'.finalized[g].Some?
        ensures Sweep(g, s'.finalized[g].value) in s'.published
      {
        assert SentIfDue(es, g);
        assert SentAt(s', g);
      }
    }
  }

  /** No height is marked graduated above a height that was finalized and not sent. */
  ghost predicate MarksInOrder(es: seq<Event>) {
    es == [] ||
    var e, rest := es[|es| - 1], es[..|es| - 1];
    MarksInOrder(rest) && (e.MarkGraduated? ==> SentBelowLast(rest))
  }

  ghost predicate SentBelowLast(es: seq<Event>) {
    forall h: nat, g: nat | LastSends(es, h) && g <= h :: SentIfDue(es, g)
  }

  lemma MarkInOrderIff(l: Ledger, s: Sys, es: seq<Event>)
    requires Started(l, s) && Legal(s, es) && Exec(s, es).pc.Swept?
    ensures SentUpTo(Exec(s, es), Exec(s, es).pc.height) <==> SentBelowLast(es)
  {
    var h := Exec(s, es).pc.height;
    RunTracks(l, s, es, h);
    SentUpToIff(l, s, es, h);
    forall h': nat | LastSends(es, h')
      ensures h' == h
    {
      RunTracks(l, s, es, h');
    }
  }

  lemma {:induction false} OrderlySnoc(s: Sys, es: seq<Event>, e: Event)
    ensures AllOrderly(s, es + [e]) <==> AllOrderly(s, es) && Orderly(Exec(s, es), e)
    ensures AllDisciplined(s, es + [e]) <==> AllDisciplined(s, es) && Disciplined(Exec(s, es), e)
    decreases |es|
  {
    var all := es + [e];
    if es == [] {
      assert all == [e] && [e][1..] == [];
    } else {
      assert all[0] == es[0] && all[1..] == es[1..] + [e];
      OrderlySnoc(Next(s, es[0]), es[1..], e);
    }
  }

  /** A run is orderly if and only if it is disciplined and its events mark heights in order. */
  lemma {:induction false} OrderlyIff(l: Ledger, s: Sys, es: seq<Event>)
    requires Started(l, s) && Legal(s, es)
    ensures AllOrderly(s, es) <==> AllDisciplined(s, es) && MarksInOrder(es)
    decreases |es|
  {
    if es != [] {
      var rest, e := es[..|es| - 1], es[|es| - 1];
      assert es == rest + [e];
      RunSnoc(s, rest, e);
      OrderlyIff(l, s, rest);
      OrderlySnoc(s, rest, e);
      if e.MarkGraduated? {
        MarkInOrderIff(l, s, rest);
      }
    }
  }

  /****** Runs in which an output is lost ******/

  const kid := Kid(1000, OutPoint([1], 0), OutPoint([2], 0), false, 10, 0, 0, CommitmentTimeLock,
                   SignDesc(0, 0, None, [], [], [], TxOut(1000, []), 1))

  /** The same output once its commitment has confirmed at height 90. */
  const grown := Confirmed(kid, 90)

  const start := Ledger(map[], map[], 99, 99)
  const down := Sys(start, Down, {}, map[], map[], {}, {})

  /** The first two events of each of these runs. */
  lemma Filed()
    ensures Enabled(down, Restart) && Enabled(Next(down, Restart), IncubateOutputs([kid], []))
    ensures Next(Next(down, Restart), IncubateOutputs([kid], [])) ==
            Sys(start.(stages := map[IdOf(kid) := Pscl(kid)]), Ready, {}, map[], map[], {}, {})
  {
    var s1 := Next(down, Restart);
    assert EnterPreschools(s1.l, [kid][..0]) == s1.l;
    assert EnterPreschools(s1.l, [kid]) == EnterPreschool(s1.l, kid);
    assert s1.waiters == {};
  }

  lemma FiledAt100()
    ensures var s := Next(Next(down, Restart), IncubateOutputs([kid], []));
            && Enabled(down, Restart) && Enabled(Next(down, Restart), IncubateOutputs([kid], []))
            && Enabled(s, PreschoolConf(IdOf(kid), 90))
            && Next(s, PreschoolConf(IdOf(kid), 90)) ==
               Sys(start.(stages := map[IdOf(kid) := Kndr(grown, 100)]), Ready, {}, map[], map[], {}, {})
  {
    Filed();
    var s := Next(Next(down, Restart), IncubateOutputs([kid], []));
    assert s.l.stages[IdOf(kid) := Kndr(grown, 100)] == map[IdOf(kid) := Kndr(grown, 100)];
  }

  const RestartRun: seq<Event> :=
    [Restart, IncubateOutputs([kid], []), Finalize(100, [], 0, []), Crash, Restart, PreschoolConf(IdOf(kid), 50)]

  lemma RestartRunEnds()
    ensures Legal(down, RestartRun)
    ensures Exec(down, RestartRun) ==
            Sys(Ledger(map[IdOf(kid) := Kndr(Confirmed(kid, 50), 100)], map[], 100, 99), Ready, {},
                map[100 := None], map[100 := []], {}, {})
  {
    var e1, e2, e5 := IncubateOutputs([kid], []), Finalize(100, [], 0, []), PreschoolConf(IdOf(kid), 50);
    Filed();
    var s2 := Next(Next(down, Restart), e1);
    assert Enabled(s2, e2);
    var s5 := Next(Next(Next(s2, e2), Crash), Restart);
    assert s5.waiters == {};
    RunSix(down, Restart, e1, e2, Crash, Restart, e5);
    assert s5.l.stages[IdOf(kid) := Kndr(Confirmed(kid, 50), 100)] == map[IdOf(kid) := Kndr(Confirmed(kid, 50), 100)];
  }

  /**
    A crash between finalizing and graduating height 100, then a restart at which the commitment's
    confirmation arrives before the catch-up: the output is bumped to height 100, whose sweep is
    already fixed, and no continuation of the run ever stores a sweep for it.
  */
  lemma {:induction false} RestartLosesOutput(more: seq<Event>)
    ensures Started(start, down) && Legal(down, RestartRun) && !Covered(Exec(down, RestartRun).l)
    ensures var s := Exec(down, RestartRun); Legal(s, more) ==> Stranded(Exec(s, more), IdOf(kid), 100)
  {
    RestartRunEnds();
    LostForGood(Exec(down, RestartRun), RestartRun, more, IdOf(kid), 100);
  }

  /** A lost output in a state that a run from the start reaches. */
  lemma {:induction false} LostForGood(s: Sys, es: seq<Event>, more: seq<Event>, id: Id, h: nat)
    requires Legal(down, es) && Exec(down, es) == s && Stranded(s, id, h) && Named(s.l) && AllKnown(s.l)
    ensures !Covered(s.l)
    ensures Legal(s, more) ==> Stranded(Exec(s, more), id, h)
  {
    RunKeepsSweepInv(down, es);
    if Legal(s, more) {
      StrandedForGood(s, more, id, h);
    }
  }

  const SkippingRun: seq<Event> :=
    [Restart, IncubateOutputs([kid], []), PreschoolConf(IdOf(kid), 90), Finalize(101, [], 0, []), Publish,
     MarkGraduated]

  lemma SkippingRunEnds()
    ensures Legal(down, SkippingRun)
    ensures Exec(down, SkippingRun) ==
            Sys(Ledger(map[IdOf(kid) := Kndr(grown, 100)], map[], 101, 101), Ready, {},
                map[101 := None], map[101 := []], {}, {})
  {
    var e1, e2, e3 := IncubateOutputs([kid], []), PreschoolConf(IdOf(kid), 90), Finalize(101, [], 0, []);
    FiledAt100();
    var s3 := Next(Next(Next(down, Restart), e1), e2);
    assert Enabled(s3, e3);
    RunSix(down, Restart, e1, e2, e3, Publish, MarkGraduated);
  }

  /**
    The block loop goes on after a failed graduateClass. A class whose sweep could not be built at
    height 100 is passed over when height 101 is finalized, and no continuation ever sweeps it.
  */
  lemma {:induction false} SkippedHeightLosesOutput(more: seq<Event>)
    ensures Started(start, down) && Legal(down, SkippingRun) && !Covered(Exec(down, SkippingRun).l)
    ensures var s := Exec(down, SkippingRun); Legal(s, more) ==> Stranded(Exec(s, more), IdOf(kid), 100)
  {
    SkippingRunEnds();
    LostForGood(Exec(down, SkippingRun), SkippingRun, more, IdOf(kid), 100);
  }

  /** A two-stage output that expires at height 80 and is delayed by another 10 blocks. */
  const baby := Baby(80, Tx([TxIn(OutPoint([3], 0), 0)], 1000, [], 80),
                     kid.(op := OutPoint([4], 0), witnessType := HtlcOfferedTimeoutSecondLevel))

  const LateRun: seq<Event> :=
    [Restart, IncubateOutputs([], [baby]), Finalize(100, [], 0, []), Publish, MarkGraduated,
     TimeoutConf(IdOf(baby.kid), 90)]

  lemma CribFiled()
    ensures Enabled(Next(down, Restart), IncubateOutputs([], [baby]))
    ensures Next(Next(down, Restart), IncubateOutputs([], [baby])) ==
            Sys(start.(stages := map[IdOf(baby.kid) := Crib(baby)]), Ready, {}, map[], map[], {}, {})
  {
    var s1 := Next(down, Restart);
    assert s1.waiters == {};
    assert EnterPreschools(s1.l, []) == s1.l && EnterCribs(s1.l, [baby][..0]) == s1.l;
    assert EnterCribs(s1.l, [baby]) == EnterCrib(s1.l, baby);
  }

  lemma LateRunEnds()
    ensures Legal(down, LateRun)
    ensures Exec(down, LateRun) ==
            Sys(Ledger(map[IdOf(baby.kid) := Kndr(Confirmed(baby.kid, 90), 100)], map[], 100, 100), Ready, {},
                map[100 := None], map[100 := []], {}, {})
  {
    var e1, e2, e5 := IncubateOutputs([], [baby]), Finalize(100, [], 0, []), TimeoutConf(IdOf(baby.kid), 90);
    CribFiled();
    var s2 := Next(Next(down, Restart), e1);
    assert Enabled(s2, e2);
    var s5 := Next(Next(Next(s2, e2), Publish), MarkGraduated);
    RunSix(down, Restart, e1, e2, Publish, MarkGraduated, e5);
    var stage := Kndr(Confirmed(baby.kid, 90), 100);
    assert s5.l.stages[IdOf(baby.kid) := stage] == map[IdOf(baby.kid) := stage];
  }

  /**
    The move out of the crib has no late bump: when a timeout transaction is seen to have confirmed
    longer ago than the delay, as after a time offline, its output is filed at a height that has been
    finalized, and no continuation ever sweeps it.
  */
  lemma {:induction false} LateTimeoutLosesOutput(more: seq<Event>)
    ensures Started(start, down) && Legal(down, LateRun) && !Covered(Exec(down, LateRun).l)
    ensures var s := Exec(down, LateRun); Legal(s, more) ==> Stranded(Exec(s, more), IdOf(baby.kid), 100)
  {
    LateRunEnds();
    LostForGood(Exec(down, LateRun), LateRun, more, IdOf(baby.kid), 100);
  }

  /** Height `h` was finalized, but its sweep has not been broadcast and is not about to be. */
  ghost predicate Unsent(s: Sys, h: nat) {
    && h <= s.l.lastFinalized && (s.pc.Sweeping? ==> s.pc.height != h)
    && forall w <- s.published :: w.height != h
  }

  /** Unless that very height is handled again, its sweep is never broadcast: a restart only watches for it. */
  lemma {:induction false} UnsentForGood(s: Sys, es: seq<Event>, h: nat)
    requires SweepInv(s) && Unsent(s, h) && Legal(s, es) && forall i | 0 <= i < |es| :: es[i] != Replay(h)
    ensures Unsent(Exec(s, es), h)
    decreases |es|
  {
    if es != [] {
      StepKeepsSweepInv(s, es[0]);
      assert es[0] != Replay(h);
      UnsentForGood(Next(s, es[0]), es[1..], h);
    }
  }

  lemma SweepOfOne()
    ensures SweepOf([grown], 100, 10, []) == Tx([TxIn(kid.op, 10)], 990, [], 0)
  {
    var kids := [grown];
    assert kids[..0] == [];
    assert Inputs(kids[..0], false) == [] && Inputs(kids[..0], true) == [] && SweptAmount(kids[..0]) == 0;
    assert Inputs(kids, false) == [TxIn(kid.op, 10)] && Inputs(kids, true) == [];
  }

  const UnsentRun: seq<Event> :=
    [Restart, IncubateOutputs([kid], []), PreschoolConf(IdOf(kid), 90), Finalize(100, [grown], 10, []), Abort,
     Finalize(101, [], 0, [])]

  lemma UnsentRunEnds()
    ensures Legal(down, UnsentRun)
    ensures Exec(down, UnsentRun).published == {} && Exec(down, UnsentRun).pc == Sweeping(101, None)
    ensures Exec(down, UnsentRun).l.lastFinalized == 101 && 100 in Exec(down, UnsentRun).l.finalTxs
  {
    var e1, e2, e3 := IncubateOutputs([kid], []), PreschoolConf(IdOf(kid), 90), Finalize(100, [grown], 10, []);
    var e5 := Finalize(101, [], 0, []);
    FiledAt100();
    SweepOfOne();
    var s3 := Next(Next(Next(down, Restart), e1), e2);
    assert Enabled(s3, e3);
    assert IdOf(kid) in Scheduled(s3.l, 100);
    assert Enabled(Next(Next(s3, e3), Abort), e5);
    RunSix(down, Restart, e1, e2, e3, Abort, e5);
  }

  /** The same loop after a failed broadcast: height 101 goes through, and the sweep of 100 stays unsent. */
  lemma {:induction false} FailedBroadcastIsNotRepeated(more: seq<Event>)
    requires forall i | 0 <= i < |more| :: more[i] != Replay(100)
    ensures Started(start, down) && Legal(down, UnsentRun) && 100 in Exec(down, UnsentRun).l.finalTxs
    ensures var s := Exec(down, UnsentRun); Legal(s, more) ==> Unsent(Exec(s, more), 100)
  {
    UnsentRunEnds();
    RunKeepsSweepInv(down, UnsentRun);
    if Legal(Exec(down, UnsentRun), more) {
      UnsentForGood(Exec(down, UnsentRun), more, 100);
    }
  }

  /****** A run in which an output graduates although nothing spends it ******/

  const kid2 := kid.(op := OutPoint([5], 0))
  const sweep := Sweep(100, Tx([TxIn(kid.op, 10)], 990, [], 0))

  /** Both outputs are in preschool, the first one moves on, and height 100 is finalized for it alone. */
  const SharedStart: seq<Event> :=
    [Restart, IncubateOutputs([kid, kid2], []), PreschoolConf(IdOf(kid), 90), Finalize(100, [grown], 10, [])]

  const SharedEnd: seq<Event> := [Publish, Abort, PreschoolConf(IdOf(kid2), 50), SweepConf(sweep)]

  const half := Sys(
    Ledger(map[IdOf(kid) := Kndr(grown, 100), IdOf(kid2) := Pscl(kid2)], map[100 := sweep.tx], 100, 99),
    Sweeping(100, Some(sweep.tx)), {}, map[100 := Some(sweep.tx)], map[100 := [grown]], {}, {})

  lemma BothFiled()
    ensures Enabled(Next(down, Restart), IncubateOutputs([kid, kid2], []))
    ensures Next(Next(down, Restart), IncubateOutputs([kid, kid2], [])) ==
            Sys(start.(stages := map[IdOf(kid) := Pscl(kid), IdOf(kid2) := Pscl(kid2)]), Ready, {},
                map[], map[], {}, {})
  {
    var s1, kids := Next(down, Restart), [kid, kid2];
    assert kids[..1] == [kid] && kids[..0] == [] && [kid][..0] == [];
    assert EnterPreschools(s1.l, [kid]) == EnterPreschool(s1.l, kid);
    assert EnterPreschools(s1.l, kids) == EnterPreschool(EnterPreschool(s1.l, kid), kid2);
    assert s1.waiters == {};
  }

  lemma SharedStartEnds()
    ensures Legal(down, SharedStart) && Exec(down, SharedStart) == half
  {
    var e1, e2, e3 := IncubateOutputs([kid, kid2], []), PreschoolConf(IdOf(kid), 90), Finalize(100, [grown], 10, []);
    BothFiled();
    SweepOfOne();
    var s2 := Next(Next(down, Restart), e1);
    var s3 := Next(s2, e2);
    assert s3.l.stages == map[IdOf(kid) := Kndr(grown, 100), IdOf(kid2) := Pscl(kid2)];
    assert Enabled(s3, e3);
    assert IdOf(kid) in Scheduled(s3.l, 100);
    assert Next(s3, e3) == half;
    RunThree(down, [e3], Restart, e1, e2);
    RunOne(s3, e3, []);
    assert [e3] + [] == [e3] && [Restart, e1, e2] + [e3] == SharedStart;
  }

  lemma SharedEndEnds()
    ensures Legal(half, SharedEnd)
    ensures Exec(half, SharedEnd).l.stages == map[IdOf(kid) := Grad(grown), IdOf(kid2) := Grad(Confirmed(kid2, 50))]
    ensures Exec(half, SharedEnd).confirmed == {sweep.tx}
  {
    var e2, e3 := PreschoolConf(IdOf(kid2), 50), SweepConf(sweep);
    var s2 := Next(Next(half, Publish), Abort);
    var s3 := Next(s2, e2);
    assert s3.l.stages == map[IdOf(kid) := Kndr(grown, 100), IdOf(kid2) := Kndr(Confirmed(kid2, 50), 100)];
    assert Enabled(s3, e3);
    RunThree(half, [e3], Publish, Abort, e2);
    RunOne(s3, e3, []);
    assert [e3] + [] == [e3] && [Publish, Abort, e2] + [e3] == SharedEnd;
  }

  /**
    The sweep of height 100 is out when a later step of graduateClass fails. The confirmation of a
    second output is bumped to that same height, and when the sweep confirms both outputs graduate,
    although it spends only the first.
  */
  lemma LatecomerGraduatesUnswept()
    ensures var es := SharedStart + SharedEnd;
            && Started(start, down) && Legal(down, es)
            && IdOf(kid2) in Exec(down, es).l.stages && Exec(down, es).l.stages[IdOf(kid2)].Grad?
            && kid2.op !in SpentOps(Exec(down, es).confirmed)
            && !GraduatesSwept(Exec(down, es))
  {
    SharedStartEnds();
    SharedEndEnds();
    RunAppend(down, SharedStart, SharedEnd);
    var s := Exec(half, SharedEnd);
    assert SpentOps({sweep.tx}) == Prevouts(sweep.tx);
    assert sweep.tx.inputs[0].prev == kid.op;
    assert Prevouts(sweep.tx) == {kid.op};
    assert IdOf(kid2) in s.l.stages && Known(s.l.stages[IdOf(kid2)].kid.witnessType);
  }

  /** Unfold a run of six events. */
  lemma RunSix(s: Sys, e0: Event, e1: Event, e2: Event, e3: Event, e4: Event, e5: Event)
    ensures var s1 := Next(s, e0); var s2 := Next(s1, e1); var s3 := Next(s2, e2);
            var s4 := Next(s3, e3); var s5 := Next(s4, e4);
            && Exec(s, [e0, e1, e2, e3, e4, e5]) == Next(s5, e5)
            && (Legal(s, [e0, e1, e2, e3, e4, e5]) <==>
                  && Enabled(s, e0) && Enabled(s1, e1) && Enabled(s2, e2)
                  && Enabled(s3, e3) && Enabled(s4, e4) && Enabled(s5, e5))
  {
    RunThree(s, [e3, e4, e5], e0, e1, e2);
    var s1 := Next(s, e0);
    var s2 := Next(s1, e1);
    var s3 := Next(s2, e2);
    assert [e0, e1, e2] + [e3, e4, e5] == [e0, e1, e2, e3, e4, e5];
    RunThree(s3, [], e3, e4, e5);
    assert [e3, e4, e5] + [] == [e3, e4, e5];
  }

  lemma RunThree(s: Sys, rest: seq<Event>, e0: Event, e1: Event, e2: Event)
    ensures var s1 := Next(s, e0); var s2 := Next(s1, e1); var s3 := Next(s2, e2);
            && Exec(s, [e0, e1, e2] + rest) == Exec(s3, rest)
            && (Legal(s, [e0, e1, e2] + rest) <==>
                  Enabled(s, e0) && Enabled(s1, e1) && Enabled(s2, e2) && Legal(s3, rest))
  {
    RunOne(s, e0, [e1, e2] + rest);
    RunOne(Next(s, e0), e1, [e2] + rest);
    RunOne(Next(Next(s, e0), e1), e2, rest);
    assert [e0, e1, e2] + rest == [e0] + ([e1, e2] + rest);
    assert [e1, e2] + rest == [e1] + ([e2] + rest);
  }

  lemma RunOne(s: Sys, e: Event, rest: seq<Event>)
    ensures Exec(s, [e] + rest) == Exec(Next(s, e), rest)
    ensures Legal(s, [e] + rest) <==> Enabled(s, e) && Legal(Next(s, e), rest)
  {
    assert ([e] + rest)[1..] == rest;
  }
}
