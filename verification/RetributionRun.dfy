/**
  The write-ahead protocol of the breach arbiter as a state machine: persist, acknowledge, hand
  off, finalize, publish, mark closed, remove. A crash may fall between any two steps.
*/
module RetributionRun {
  import opened Chain
  import opened Breach

  /** An exactRetribution goroutine. `Armed(None)` has no justice transaction to send yet, or no longer. */
  datatype Task = Waiting | Armed(next: Option<Tx>) | Published(tx: Tx) | Closing

  /** A breachObserver goroutine that has seen a breach. */
  datatype Handling = Persisted | Acknowledged

  datatype Phase = Down | Starting | Up

  /** A publication, with the transaction that was on disk at that moment. */
  datatype Broadcast = Broadcast(chan: OutPoint, tx: Tx, stored: Option<Tx>)

  datatype Sys = Sys(
    retributions: map<OutPoint, RetributionInfo>,   // on disk, like the next four
    justice: map<OutPoint, Tx>,
    open: set<OutPoint>,
    closing: set<OutPoint>,
    closed: set<OutPoint>,
    phase: Phase,                                   // in memory, like the next four
    observers: set<OutPoint>,
    handling: map<OutPoint, Handling>,
    tasks: map<OutPoint, Task>,
    dropped: set<OutPoint>,
    acked: set<OutPoint>,                           // history
    published: seq<Broadcast>)

  datatype Event =
    | OpenChannel(chan: OutPoint)
    | WatchAgain(chan: OutPoint)
    | BreachSeen(chan: OutPoint, info: RetributionInfo)
    | Ack(chan: OutPoint)
    | MarkPending(chan: OutPoint)
    | ClosePeacefully(chan: OutPoint)
    | Settle(chan: OutPoint)
    | ResolvePeacefully(chan: OutPoint)
    | HandOff(chan: OutPoint, registered: bool)
    | BreachConfirmed(chan: OutPoint)
    | FinalizeJustice(chan: OutPoint, tx: Tx)
    | Publish(chan: OutPoint, doubleSpend: bool)
    | MarkClosed(chan: OutPoint)
    | Remove(chan: OutPoint)
    | TaskFails(chan: OutPoint)
    | Crash
    | Boot
    | Reconcile(chan: OutPoint)
    | Launch

  function Stored<T>(m: map<OutPoint, T>, c: OutPoint): Option<T> {
    if c in m then Some(m[c]) else None
  }

  /** Entries of channels that are already fully closed. */
  function Stale(s: Sys): set<OutPoint> {
    set c | c in s.retributions && c in s.closed
  }

  predicate Enabled(s: Sys, e: Event) {
    match e
    case Crash => true
    case Boot => s.phase.Down?
    case Reconcile(c) => s.phase.Starting? && c in Stale(s)
    case Launch => s.phase.Starting? && Stale(s) == {}
    case OpenChannel(c) => s.phase.Up? && c !in s.open + s.closing + s.closed
    case WatchAgain(c) => s.phase.Up? && c in s.open && c !in s.retributions
    case BreachSeen(c, info) =>
      && s.phase.Up? && c in s.observers && c in s.open && c !in s.handling && c !in s.tasks
      && info.chan == c && AllRecognized(info.outputs)
    case Ack(c) => s.phase.Up? && c in s.handling && s.handling[c].Persisted?
    case MarkPending(c) => s.phase.Up? && c in s.acked && c in s.open
    case ClosePeacefully(c) => s.phase.Up? && c in s.open && c !in s.retributions
    case Settle(c) => s.phase.Up? && c !in s.handling
    case ResolvePeacefully(c) => s.phase.Up? && c in s.closing && c !in s.retributions
    case HandOff(c, _) => s.phase.Up? && c in s.handling && s.handling[c].Acknowledged?
    case BreachConfirmed(c) => s.phase.Up? && c in s.tasks && s.tasks[c].Waiting?
    case FinalizeJustice(c, _) => s.phase.Up? && c in s.tasks && s.tasks[c] == Armed(None)
    case Publish(c, _) => s.phase.Up? && c in s.tasks && s.tasks[c].Armed? && s.tasks[c].next.Some?
    case MarkClosed(c) => s.phase.Up? && c in s.tasks && s.tasks[c].Published? && c in s.closing
    case Remove(c) => s.phase.Up? && c in s.tasks && s.tasks[c].Closing?
    case TaskFails(c) => s.phase.Up? && c in s.tasks
  }

  function Next(s: Sys, e: Event): Sys
    requires Enabled(s, e)
  {
    match e
    case Crash => s.(phase := Down, observers := {}, handling := map[], tasks := map[], dropped := {})
    case Boot => s.(phase := Starting)
    case Reconcile(c) => s.(retributions := s.retributions - {c}, justice := s.justice - {c})
    case Launch =>
      s.(phase := Up, tasks := map c | c in s.retributions :: Waiting, observers := s.open - s.retributions.Keys)
    case OpenChannel(c) => s.(open := s.open + {c}, observers := s.observers + {c})
    case WatchAgain(c) => s.(observers := s.observers + {c})
    case BreachSeen(c, info) =>
      s.(retributions := s.retributions[c := info], handling := s.handling[c := Persisted])
    case Ack(c) => s.(handling := s.handling[c := Acknowledged], acked := s.acked + {c})
    case MarkPending(c) => s.(open := s.open - {c}, closing := s.closing + {c})
    case ClosePeacefully(c) => s.(open := s.open - {c}, closing := s.closing + {c})
    case Settle(c) => s.(observers := s.observers - {c})
    case ResolvePeacefully(c) => s.(closing := s.closing - {c}, closed := s.closed + {c})
    case HandOff(c, registered) =>
      if registered then
        s.(handling := s.handling - {c}, tasks := s.tasks[c := Waiting], observers := s.observers - {c})
      else s.(handling := s.handling - {c}, dropped := s.dropped + {c})
    case BreachConfirmed(c) => s.(tasks := s.tasks[c := Armed(Stored(s.justice, c))])
    case FinalizeJustice(c, tx) => s.(justice := s.justice[c := tx], tasks := s.tasks[c := Armed(Some(tx))])
    case Publish(c, doubleSpend) =>
      var tx := s.tasks[c].next.value;
      s.(published := s.published + [Broadcast(c, tx, Stored(s.justice, c))],
         tasks := s.tasks[c := if doubleSpend then Armed(None) else Published(tx)])
    case MarkClosed(c) => s.(closing := s.closing - {c}, closed := s.closed + {c}, tasks := s.tasks[c := Closing])
    case Remove(c) => s.(retributions := s.retributions - {c}, justice := s.justice - {c}, tasks := s.tasks - {c})
    case TaskFails(c) => s.(tasks := s.tasks - {c}, dropped := s.dropped + {c})
  }

  predicate Legal(s: Sys, es: seq<Event>)
    decreases |es|
  {
    es == [] || (Enabled(s, es[0]) && Legal(Next(s, es[0]), es[1..]))
  }

  function Exec(s: Sys, es: seq<Event>): Sys
    requires Legal(s, es)
    decreases |es|
  {
    if es == [] then s else Exec(Next(s, es[0]), es[1..])
  }

  /** A node with some open channels and an empty retribution store. */
  predicate Started(s: Sys) {
    && s.retributions == map[] && s.justice == map[] && s.phase.Down? && s.acked == {} && s.published == []
    && s.observers == {} && s.handling == map[] && s.tasks == map[] && s.dropped == {}
    && s.open !! s.closing && s.open !! s.closed && s.closing !! s.closed
  }

  /****** Invariants ******/

  /** Acknowledged breaches stay on disk until the channel is fully closed. */
  predicate Durable(s: Sys) {
    forall c <- s.acked :: c in s.closed || c in s.retributions
  }

  predicate WriteAhead(s: Sys) {
    forall i | 0 <= i < |s.published| :: s.published[i].stored == Some(s.published[i].tx)
  }

  /** Every unfinished acknowledged breach is being worked on, except those dropped since the last start. */
  predicate InHand(s: Sys) {
    s.phase.Up? ==> forall c <- s.acked :: c in s.closed || c in s.tasks || c in s.handling || c in s.dropped
  }

  predicate TaskOk(s: Sys, c: OutPoint, t: Task) {
    && c in s.retributions && c !in s.handling
    && (t.Closing? <==> c in s.closed)
    && (t.Armed? && t.next.Some? ==> Stored(s.justice, c) == t.next)
    && (t.Published? ==> Stored(s.justice, c) == Some(t.tx))
  }

  predicate HandlingOk(s: Sys, c: OutPoint, h: Handling) {
    c in s.retributions && c !in s.closed && (h.Acknowledged? ==> c in s.acked)
  }

  /** Records name their channel and hold only outputs that a justice transaction can claim. */
  predicate RecordsFit(s: Sys) {
    forall c <- s.retributions :: s.retributions[c].chan == c && AllRecognized(s.retributions[c].outputs)
  }

  predicate Disjoint(s: Sys) {
    && s.open !! s.closing && s.open !! s.closed && s.closing !! s.closed
    && forall c <- s.retributions :: c in s.open || c in s.closing || c in s.closed
  }

  predicate Quiet(s: Sys) {
    !s.phase.Up? ==> s.tasks == map[] && s.handling == map[] && s.observers == {} && s.dropped == {}
  }

  /** A fully closed channel has an entry only while its task is about to remove it. */
  predicate StaleHandled(s: Sys) {
    s.phase.Up? ==> forall c <- Stale(s) :: c in s.tasks || c in s.dropped
  }

  predicate Inv(s: Sys) {
    && Durable(s) && WriteAhead(s) && InHand(s) && Disjoint(s) && Quiet(s) && StaleHandled(s) && RecordsFit(s)
    && s.justice.Keys <= s.retributions.Keys
    && (forall c <- s.tasks :: TaskOk(s, c, s.tasks[c]))
    && (forall c <- s.handling :: HandlingOk(s, c, s.handling[c]))
  }

  lemma WatchStep(s: Sys, e: Event)
    requires Inv(s) && Enabled(s, e) && (e.OpenChannel? || e.WatchAgain? || e.Settle?)
    ensures Inv(Next(s, e))
  {
    assert forall c <- s.tasks :: TaskOk(Next(s, e), c, s.tasks[c]);
  }

  lemma ChannelStep(s: Sys, e: Event)
    requires Inv(s) && Enabled(s, e) && (e.MarkPending? || e.ClosePeacefully? || e.ResolvePeacefully?)
    ensures Inv(Next(s, e))
  {
    assert forall c <- s.tasks :: TaskOk(Next(s, e), c, s.tasks[c]);
  }

  lemma BreachStep(s: Sys, c: OutPoint, info: RetributionInfo)
    requires Inv(s) && Enabled(s, BreachSeen(c, info))
    ensures Inv(Next(s, BreachSeen(c, info)))
  {
    assert Next(s, BreachSeen(c, info)).tasks == s.tasks;
  }

  lemma AckStep(s: Sys, c: OutPoint)
    requires Inv(s) && Enabled(s, Ack(c))
    ensures Inv(Next(s, Ack(c)))
  {
    assert HandlingOk(s, c, s.handling[c]);
  }

  lemma HandOffStep(s: Sys, e: Event)
    requires Inv(s) && Enabled(s, e) && e.HandOff?
    ensures Inv(Next(s, e))
  {
    assert HandlingOk(s, e.chan, s.handling[e.chan]);
  }

  lemma JusticeStep(s: Sys, e: Event)
    requires Inv(s) && Enabled(s, e) && (e.BreachConfirmed? || e.FinalizeJustice?)
    ensures Inv(Next(s, e))
  {
    assert TaskOk(s, e.chan, s.tasks[e.chan]);
  }

  lemma PublishStep(s: Sys, c: OutPoint, doubleSpend: bool)
    requires Inv(s) && Enabled(s, Publish(c, doubleSpend))
    ensures Inv(Next(s, Publish(c, doubleSpend)))
  {
    assert TaskOk(s, c, s.tasks[c]);
  }

  lemma CloseStep(s: Sys, c: OutPoint)
    requires Inv(s) && Enabled(s, MarkClosed(c))
    ensures Inv(Next(s, MarkClosed(c)))
  {
    assert TaskOk(s, c, s.tasks[c]);
  }

  lemma FinishStep(s: Sys, e: Event)
    requires Inv(s) && Enabled(s, e) && (e.Remove? || e.TaskFails?)
    ensures Inv(Next(s, e))
  {
    assert TaskOk(s, e.chan, s.tasks[e.chan]);
  }

  lemma StartStep(s: Sys, e: Event)
    requires Inv(s) && Enabled(s, e) && (e.Crash? || e.Boot? || e.Reconcile? || e.Launch?)
    ensures Inv(Next(s, e))
  {
    assert forall c <- s.retributions | e.Launch? :: c !in Stale(s);
  }

  lemma StepKeepsInv(s: Sys, e: Event)
    requires Inv(s) && Enabled(s, e)
    ensures Inv(Next(s, e))
  {
    match e
    case BreachSeen(c, info) => BreachStep(s, c, info);
    case Ack(c) => AckStep(s, c);
    case HandOff(_, _) => HandOffStep(s, e);
    case BreachConfirmed(_) => JusticeStep(s, e);
    case FinalizeJustice(_, _) => JusticeStep(s, e);
    case Publish(c, doubleSpend) => PublishStep(s, c, doubleSpend);
    case MarkClosed(c) => CloseStep(s, c);
    case Remove(_) => FinishStep(s, e);
    case TaskFails(_) => FinishStep(s, e);
    case Crash => StartStep(s, e);
    case Boot => StartStep(s, e);
    case Reconcile(_) => StartStep(s, e);
    case Launch => StartStep(s, e);
    case MarkPending(_) => ChannelStep(s, e);
    case ClosePeacefully(_) => ChannelStep(s, e);
    case ResolvePeacefully(_) => ChannelStep(s, e);
    case _ => WatchStep(s, e);
  }

  lemma {:induction false} RunKeepsInv(s: Sys, es: seq<Event>)
    requires Inv(s) && Legal(s, es)
    ensures Inv(Exec(s, es))
    decreases |es|
  {
    if es != [] {
      StepKeepsInv(s, es[0]);
      RunKeepsInv(Next(s, es[0]), es[1..]);
    }
  }

  /**
    In every run, with crashes anywhere: an acknowledged breach is stored until its channel is
    fully closed, whatever was published was on disk at that moment, and no channel has both a
    task and an unfinished handover.
  */
  lemma CrashSafe(s: Sys, es: seq<Event>)
    requires Started(s) && Legal(s, es)
    ensures var s' := Exec(s, es);
            && Durable(s') && WriteAhead(s') && InHand(s')
            && s'.tasks.Keys !! s'.handling.Keys && s'.tasks.Keys <= s'.retributions.Keys
  {
    RunKeepsInv(s, es);
  }

  /**
    After any restart, tasks and observers partition the unfinished channels, no fully closed
    channel keeps an entry, and every acknowledged breach that is not finished has a task.
  */
  lemma RestartPartition(s: Sys, es: seq<Event>)
    requires Started(s) && Legal(s, es) && Enabled(Exec(s, es), Launch)
    ensures var s' := Next(Exec(s, es), Launch);
            && s'.tasks.Keys !! s'.observers
            && s'.tasks.Keys + s'.observers == s'.open + s'.retributions.Keys
            && s'.tasks.Keys + s'.observers <= s'.open + s'.closing
            && s'.closed !! s'.retributions.Keys
            && s'.acked - s'.closed <= s'.tasks.Keys
            && s'.open - s'.acked - s'.tasks.Keys <= s'.observers
  {
    RunKeepsInv(s, es);
    var s1 := Exec(s, es);
    assert forall c <- s1.retributions :: c !in Stale(s1);
  }
}
