/**
  The stages a channel passes after its funding transaction has confirmed, persisted so that a
  restart can resume them, with one worker per channel and crashes anywhere.
*/
module FundingStages {
  import opened Chain

  type Channel = OutPoint

  datatype Stage = MarkedOpen | FundingLockedSent | AddedToRouterGraph

  /** Where a worker is; a step and the write that records it are separate. */
  datatype Work =
    | Sending
    | LockedUnsaved
    | Routing
    | RoutedUnsaved
    | Announcing(target: Channel)
    | AnnouncedUnsaved(target: Channel)

  datatype Sys = Sys(
    stages: map<Channel, Stage>,      // on disk
    workers: map<Channel, Work>,      // in memory
    known: set<Channel>,              // history, like the next three
    locked: set<Channel>,             // FundingLocked was sent
    routed: set<Channel>,             // announced to the local router graph
    proven: set<Channel>)             // public proof broadcast

  datatype Event =
    | Confirmed(chan: Channel)
    | SendLocked(chan: Channel)
    | SaveLocked(chan: Channel)
    | AddToGraph(chan: Channel)
    | SaveRouted(chan: Channel)
    | Announce(chan: Channel, public: bool)
    | Delete(chan: Channel)
    | WorkerFails(chan: Channel)
    | Crash
    | Resume(chan: Channel, captured: Channel)

  predicate At(s: Sys, c: Channel, w: Work) {
    c in s.workers && s.workers[c] == w
  }

  predicate Enabled(s: Sys, e: Event) {
    match e
    case Confirmed(c) => c !in s.known && c !in s.workers
    case SendLocked(c) => At(s, c, Sending)
    case SaveLocked(c) => At(s, c, LockedUnsaved)
    case AddToGraph(c) => At(s, c, Routing)
    case SaveRouted(c) => At(s, c, RoutedUnsaved)
    case Announce(c, _) => c in s.workers && s.workers[c].Announcing?
    case Delete(c) => c in s.workers && s.workers[c].AnnouncedUnsaved?
    case WorkerFails(c) => c in s.workers
    case Crash => true
    case Resume(c, _) => c in s.stages && c !in s.workers
  }

  /**
    The worker that resumes a stage after a restart. The goroutine for the last stage reads the
    loop variable, so it acts on whatever channel that holds by then.
  */
  function Resumed(stage: Stage, captured: Channel): Work {
    match stage
    case MarkedOpen => Sending
    case FundingLockedSent => Routing
    case AddedToRouterGraph => Announcing(captured)
  }

  function Next(s: Sys, e: Event): Sys
    requires Enabled(s, e)
  {
    match e
    case Confirmed(c) =>
      s.(stages := s.stages[c := MarkedOpen], workers := s.workers[c := Sending], known := s.known + {c})
    case SendLocked(c) => s.(locked := s.locked + {c}, workers := s.workers[c := LockedUnsaved])
    case SaveLocked(c) => s.(stages := s.stages[c := FundingLockedSent], workers := s.workers[c := Routing])
    case AddToGraph(c) => s.(routed := s.routed + {c}, workers := s.workers[c := RoutedUnsaved])
    case SaveRouted(c) => s.(stages := s.stages[c := AddedToRouterGraph], workers := s.workers[c := Announcing(c)])
    case Announce(c, public) =>
      var t := s.workers[c].target;
      s.(proven := if public then s.proven + {t} else s.proven, workers := s.workers[c := AnnouncedUnsaved(t)])
    case Delete(c) => s.(stages := s.stages - {s.workers[c].target}, workers := s.workers - {c})
    case WorkerFails(c) => s.(workers := s.workers - {c})
    case Crash => s.(workers := map[])
    case Resume(c, captured) => s.(workers := s.workers[c := Resumed(s.stages[c], captured)])
  }

  function StageOf(s: Sys, c: Channel): Option<Stage> {
    if c in s.stages then Some(s.stages[c]) else None
  }

  /** The stored stage stays, or moves to the next one; only a new channel enters. */
  predicate Advances(s: Sys, s': Sys, c: Channel) {
    var from, to := StageOf(s, c), StageOf(s', c);
    || from == to
    || (from == None && to == Some(MarkedOpen) && c !in s.known)
    || (from == Some(MarkedOpen) && to == Some(FundingLockedSent))
    || (from == Some(FundingLockedSent) && to == Some(AddedToRouterGraph))
    || (from == Some(AddedToRouterGraph) && to == None)
  }

  /** What has happened on the wire is at least what the disk says. */
  predicate Backed(s: Sys, c: Channel) {
    && c in s.known
    && (StageOf(s, c) == Some(FundingLockedSent) ==> c in s.locked)
    && (StageOf(s, c) == Some(AddedToRouterGraph) ==> c in s.locked && c in s.routed)
  }

  predicate WorkerFits(s: Sys, c: Channel, w: Work) {
    match w
    case Sending => StageOf(s, c) == Some(MarkedOpen)
    case LockedUnsaved => StageOf(s, c) == Some(MarkedOpen) && c in s.locked
    case Routing => StageOf(s, c) == Some(FundingLockedSent)
    case RoutedUnsaved => StageOf(s, c) == Some(FundingLockedSent) && c in s.routed
    case Announcing(t) => t == c ==> c in s.routed && !EarlyStage(s, c)
    case AnnouncedUnsaved(t) => t == c ==> c in s.routed && !EarlyStage(s, c)
  }

  predicate EarlyStage(s: Sys, c: Channel) {
    StageOf(s, c) == Some(MarkedOpen) || StageOf(s, c) == Some(FundingLockedSent)
  }

  /** No graph announcement without a sent FundingLocked, no public proof without the graph step. */
  predicate Ordered(s: Sys) {
    s.proven <= s.routed <= s.locked <= s.known
  }

  predicate Inv(s: Sys) {
    && Ordered(s)
    && (forall c <- s.stages :: Backed(s, c))
    && (forall c <- s.workers :: WorkerFits(s, c, s.workers[c]))
  }

  /** A public proof follows the graph step of its channel, and no early stage is deleted. */
  predicate InOrder(s: Sys, e: Event)
    requires Enabled(s, e)
  {
    match e
    case Announce(c, public) => public ==> s.workers[c].target in s.routed
    case Delete(c) => !EarlyStage(s, s.workers[c].target)
    case _ => true
  }

  lemma StepKeepsInv(s: Sys, e: Event)
    requires Inv(s) && Enabled(s, e) && InOrder(s, e)
    ensures Inv(Next(s, e)) && forall c :: Advances(s, Next(s, e), c)
  {
    var s' := Next(s, e);
    if !e.Crash? && e.chan in s.workers {
      assert WorkerFits(s, e.chan, s.workers[e.chan]);
    }
    if e.Delete? {
      var t := s.workers[e.chan].target;
      DeleteAdvances(s, s', t);
      assert forall c | c != t :: StageOf(s', c) == StageOf(s, c);
    }
    forall c | c in s'.workers
      ensures WorkerFits(s', c, s'.workers[c])
    {
      assert c in s.workers ==> WorkerFits(s, c, s.workers[c]);
      assert c in s.stages ==> Backed(s, c);
    }
    forall c | c in s'.stages
      ensures Backed(s', c)
    {
      assert c in s.stages ==> Backed(s, c);
    }
  }

  /** A step keeps the order of stages and of events on the wire if and only if it is in order. */
  lemma StepInOrderIff(s: Sys, e: Event)
    requires Inv(s) && Enabled(s, e)
    ensures (forall c :: Advances(s, Next(s, e), c)) && Ordered(Next(s, e)) <==> InOrder(s, e)
  {
    if InOrder(s, e) {
      StepKeepsInv(s, e);
    } else if e.Delete? {
      DeleteAdvances(s, Next(s, e), s.workers[e.chan].target);
    } else {
      assert s.workers[e.chan].target in Next(s, e).proven;
    }
  }

  predicate Legal(s: Sys, es: seq<Event>)
    decreases |es|
  {
    es == [] || (Enabled(s, es[0]) && Legal(Next(s, es[0]), es[1..]))
  }

  function Exec(s: Sys, es: seq<Event>): Sys
    requires Legal(s, es)
    decreases |es|
  {
    if es == [] then s else Exec(Next(s, es[0]), es[1..])
  }

  predicate AllInOrder(s: Sys, es: seq<Event>)
    requires Legal(s, es)
    decreases |es|
  {
    es == [] || (InOrder(s, es[0]) && AllInOrder(Next(s, es[0]), es[1..]))
  }

  /** Every step of a run advances the stages by at most one and keeps the order on the wire. */
  ghost predicate NeverSkips(s: Sys, es: seq<Event>)
    requires Legal(s, es)
    decreases |es|
  {
    es == [] ||
    var s' := Next(s, es[0]);
    (forall c :: Advances(s, s', c)) && Ordered(s') && NeverSkips(s', es[1..])
  }

  const Empty := Sys(map[], map[], {}, {}, {}, {})

  lemma {:induction false} RunInOrderIff(s: Sys, es: seq<Event>)
    requires Inv(s) && Legal(s, es)
    ensures NeverSkips(s, es) <==> AllInOrder(s, es)
    ensures AllInOrder(s, es) ==> Inv(Exec(s, es))
    decreases |es|
  {
    if es != [] {
      StepInOrderIff(s, es[0]);
      if InOrder(s, es[0]) {
        StepKeepsInv(s, es[0]);
        RunInOrderIff(Next(s, es[0]), es[1..]);
      }
    }
  }

  /**
    The exact condition, with crashes anywhere: in a run no stage is skipped, no graph announcement
    precedes FundingLocked and no public proof precedes the graph step, if and only if every proof
    and every deletion is for a channel that has come as far.
  */
  lemma OpeningIsOrderedIff(es: seq<Event>)
    requires Legal(Empty, es)
    ensures NeverSkips(Empty, es) <==> AllInOrder(Empty, es)
    ensures AllInOrder(Empty, es) ==> Ordered(Exec(Empty, es))
  {
    RunInOrderIff(Empty, es);
  }

  predicate OwnChannel(e: Event) {
    e.Resume? ==> e.captured == e.chan
  }

  predicate AllOwn(es: seq<Event>) {
    forall i | 0 <= i < |es| :: OwnChannel(es[i])
  }

  /** Every worker acts on its own channel. */
  predicate OwnWorkers(s: Sys) {
    forall c <- s.workers :: s.workers[c].Announcing? || s.workers[c].AnnouncedUnsaved? ==> s.workers[c].target == c
  }

  lemma {:induction false} OwnRunInOrder(s: Sys, es: seq<Event>)
    requires Inv(s) && OwnWorkers(s) && Legal(s, es) && AllOwn(es)
    ensures AllInOrder(s, es)
    decreases |es|
  {
    if es != [] {
      assert OwnChannel(es[0]);
      if es[0].Announce? || es[0].Delete? {
        assert WorkerFits(s, es[0].chan, s.workers[es[0].chan]);
      }
      StepKeepsInv(s, es[0]);
      OwnRunInOrder(Next(s, es[0]), es[1..]);
    }
  }

  /** In particular when every resumed worker still sees its own channel. */
  lemma OpeningIsOrdered(es: seq<Event>)
    requires Legal(Empty, es) && AllOwn(es)
    ensures NeverSkips(Empty, es) && Ordered(Exec(Empty, es))
  {
    OwnRunInOrder(Empty, es);
    OpeningIsOrderedIff(es);
  }

  /**
    The goroutine that resumes the last stage of `c` acts on the channel `d` that the loop variable
    holds by then. Deleting the stage of `d` skips nothing if and only if `d` is not in an earlier
    stage, its public proof comes in order if and only if `d` has had its graph step, and the
    opening of `c` itself is finished if and only if `d` is `c`.
  */
  lemma ResumeSafeIff(s: Sys, c: Channel, d: Channel)
    requires Inv(s) && c !in s.workers && StageOf(s, c) == Some(AddedToRouterGraph)
    ensures var s1 := Next(s, Resume(c, d));
            var s2 := Next(s1, Announce(c, true));
            var s3 := Next(s2, Delete(c));
            && ((forall x :: Advances(s2, s3, x)) <==> !EarlyStage(s, d))
            && (Ordered(s2) <==> d in s.routed)
            && (StageOf(s3, c) == None <==> d == c)
            && (forall x | x != d :: StageOf(s3, x) == StageOf(s, x))
  {
    var s1 := Next(s, Resume(c, d));
    var s2 := Next(s1, Announce(c, true));
    var s3 := Next(s2, Delete(c));
    assert StageOf(s2, d) == StageOf(s, d) && StageOf(s3, d) == None;
    assert forall x | x != d :: StageOf(s3, x) == StageOf(s2, x);
    DeleteAdvances(s2, s3, d);
    assert d in s2.proven;
  }

  lemma DeleteAdvances(s: Sys, s': Sys, d: Channel)
    requires StageOf(s', d) == None
    ensures Advances(s, s', d) <==> !EarlyStage(s, d)
  {
    if d in s.stages {
      assert s.stages[d].MarkedOpen? || s.stages[d].FundingLockedSent? || s.stages[d].AddedToRouterGraph?;
    }
  }

  /** The events that take a channel to the router graph, and the state they lead to. */
  function ToGraph(c: Channel, rest: seq<Event>): seq<Event> {
    [Confirmed(c)] + ([SendLocked(c)] + ([SaveLocked(c)] + ([AddToGraph(c)] + ([SaveRouted(c)] + rest))))
  }

  function InGraph(s: Sys, c: Channel): Sys {
    Sys(s.stages[c := AddedToRouterGraph], s.workers[c := Announcing(c)],
        s.known + {c}, s.locked + {c}, s.routed + {c}, s.proven)
  }

  lemma ToGraphRuns(s: Sys, c: Channel, rest: seq<Event>)
    requires c !in s.known && c !in s.workers && Legal(InGraph(s, c), rest)
    ensures Legal(s, ToGraph(c, rest)) && Exec(s, ToGraph(c, rest)) == Exec(InGraph(s, c), rest)
  {
    var s1 := Next(s, Confirmed(c));
    var s2 := Next(s1, SendLocked(c));
    var s3 := Next(s2, SaveLocked(c));
    var s4 := Next(s3, AddToGraph(c));
    assert Next(s4, SaveRouted(c)) == InGraph(s, c);
    var e5 := [SaveRouted(c)] + rest;
    var e4 := [AddToGraph(c)] + e5;
    var e3 := [SaveLocked(c)] + e4;
    LegalCons(s4, SaveRouted(c), rest);
    LegalCons(s3, AddToGraph(c), e5);
    LegalCons(s2, SaveLocked(c), e4);
    LegalCons(s1, SendLocked(c), e3);
    LegalCons(s, Confirmed(c), [SendLocked(c)] + e3);
  }

  /** One channel goes as far as the router graph, another one is confirmed, and the process dies. */
  function TwoStages(c: Channel, d: Channel): seq<Event> {
    ToGraph(c, [Confirmed(d)] + [Crash])
  }

  /** And a run in which the wrong channel is then announced, before its FundingLocked, and its stage deleted. */
  function WrongRun(c: Channel, d: Channel): seq<Event> {
    TwoStages(c, d) + ([Resume(c, d)] + ([Announce(c, true)] + [Delete(c)]))
  }

  lemma TwoStagesRuns(c: Channel, d: Channel)
    requires c != d
    ensures Legal(Empty, TwoStages(c, d))
    ensures Exec(Empty, TwoStages(c, d)) ==
            Sys(map[c := AddedToRouterGraph, d := MarkedOpen], map[], {c, d}, {c}, {c}, {})
  {
    var s1 := InGraph(Empty, c);
    var s2 := Next(s1, Confirmed(d));
    LegalCons(s2, Crash, []);
    assert [Crash] + [] == [Crash];
    LegalCons(s1, Confirmed(d), [Crash]);
    ToGraphRuns(Empty, c, [Confirmed(d)] + [Crash]);
    assert s2.stages == map[c := AddedToRouterGraph, d := MarkedOpen];
  }

  /**
    After a restart with two channels at different stages, the goroutine of the first announces the
    second, which has neither had its graph step nor sent FundingLocked, and deletes its stage.
  */
  lemma WrongChannelAnnounced(c: Channel, d: Channel)
    requires c != d
    ensures var es := WrongRun(c, d);
            && Legal(Empty, es) && d in Exec(Empty, es).proven && d !in Exec(Empty, es).routed
            && d !in Exec(Empty, es).locked && d !in Exec(Empty, es).stages && c in Exec(Empty, es).stages
            && !NeverSkips(Empty, es)
  {
    TwoStagesRuns(c, d);
    var s := Exec(Empty, TwoStages(c, d));
    var s1 := Next(s, Resume(c, d));
    var s2 := Next(s1, Announce(c, true));
    LegalCons(s2, Delete(c), []);
    assert [Delete(c)] + [] == [Delete(c)];
    LegalCons(s1, Announce(c, true), [Delete(c)]);
    var tail := [Resume(c, d)] + ([Announce(c, true)] + [Delete(c)]);
    LegalCons(s, Resume(c, d), [Announce(c, true)] + [Delete(c)]);
    LegalAppend(Empty, TwoStages(c, d), tail);
    var s' := Next(s2, Delete(c));
    assert Exec(Empty, WrongRun(c, d)) == s';
    assert d in s'.proven && d !in s'.routed && !Ordered(s');
    RunInOrderIff(Empty, WrongRun(c, d));
  }

  lemma {:induction false} LegalAppend(s: Sys, es: seq<Event>, fs: seq<Event>)
    requires Legal(s, es) && Legal(Exec(s, es), fs)
    ensures Legal(s, es + fs) && Exec(s, es + fs) == Exec(Exec(s, es), fs)
    decreases |es|
  {
    if es == [] {
      assert es + fs == fs;
    } else {
      LegalAppend(Next(s, es[0]), es[1..], fs);
      assert (es + fs)[0] == es[0] && (es + fs)[1..] == es[1..] + fs;
    }
  }

  lemma LegalCons(s: Sys, e: Event, es: seq<Event>)
    requires Enabled(s, e) && Legal(Next(s, e), es)
    ensures Legal(s, [e] + es) && Exec(s, [e] + es) == Exec(Next(s, e), es)
  {
    assert ([e] + es)[1..] == es;
  }
}
