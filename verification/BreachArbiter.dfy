/**
  The retribution store and the arbiter as objects. Each method call is a legal stretch of a run
  of the write-ahead protocol.
*/
module BreachArbiter {
  import opened Chain
  import opened Breach
  import opened RetributionRun

  lemma {:induction false} RunAppend(s: Sys, es: seq<Event>, fs: seq<Event>)
    requires Legal(s, es) && Legal(Exec(s, es), fs)
    ensures Legal(s, es + fs) && Exec(s, es + fs) == Exec(Exec(s, es), fs)
    decreases |es|
  {
    if es == [] {
      assert es + fs == fs;
    } else {
      assert (es + fs)[1..] == es[1..] + fs;
      RunAppend(Next(s, es[0]), es[1..], fs);
    }
  }

  /** `es` takes the system from `s` to `s'`. */
  ghost predicate Leads(s: Sys, es: seq<Event>, s': Sys) {
    Legal(s, es) && Exec(s, es) == s'
  }

  lemma Extend(s: Sys, es: seq<Event>, s': Sys, e: Event)
    requires Leads(s, es, s') && Enabled(s', e)
    ensures Leads(s, es + [e], Next(s', e))
  {
    SingleStep(s', e);
    RunAppend(s, es, [e]);
  }

  lemma SingleStep(s: Sys, e: Event)
    requires Enabled(s, e)
    ensures Legal(s, [e]) && Exec(s, [e]) == Next(s, e)
  {
    var s1 := Next(s, e);
    assert [e][1..] == [];
    assert Legal(s1, [e][1..]);
    assert Exec(s1, [e][1..]) == s1;
  }

  /** Two buckets, each created by its first write. */
  class RetributionStore {
    var infoBucket: Option<map<OutPoint, RetributionInfo>>
    var justiceBucket: Option<map<OutPoint, Tx>>

    function Infos(): map<OutPoint, RetributionInfo>
      reads this
    {
      if infoBucket.Some? then infoBucket.value else map[]
    }

    function Justice(): map<OutPoint, Tx>
      reads this
    {
      if justiceBucket.Some? then justiceBucket.value else map[]
    }

    constructor ()
      ensures Infos() == map[] && Justice() == map[]
    {
      infoBucket, justiceBucket := None, None;
    }

    method Add(ret: RetributionInfo)
      modifies `infoBucket
      ensures Infos() == old(Infos())[ret.chan := ret]
    {
      if infoBucket.None? {
        infoBucket := Some(map[]);
      }
      infoBucket := Some(infoBucket.value[ret.chan := ret]);
    }

    method Finalize(c: OutPoint, tx: Tx)
      modifies `justiceBucket
      ensures Justice() == old(Justice())[c := tx]
    {
      if justiceBucket.None? {
        justiceBucket := Some(map[]);
      }
      justiceBucket := Some(justiceBucket.value[c := tx]);
    }

    method GetFinalizedTxn(c: OutPoint) returns (tx: Option<Tx>)
      ensures tx == Stored(Justice(), c)
    {
      if justiceBucket.None? {
        return None;
      }
      tx := if c in justiceBucket.value then Some(justiceBucket.value[c]) else None;
    }

    method IsBreached(c: OutPoint) returns (found: bool)
      ensures found <==> c in Infos()
    {
      found := infoBucket.Some? && c in infoBucket.value;
    }

    /** Removes the record and the transaction of a channel, and nothing else; fails on a store never written to. */
    method Remove(c: OutPoint) returns (ok: bool)
      modifies this
      ensures ok <==> old(infoBucket).Some?
      ensures old(c in Infos()) ==> ok
      ensures Infos() == old(Infos()) - {c}
      ensures Justice() == if ok then old(Justice()) - {c} else old(Justice())
    {
      if infoBucket.None? {
        return false;
      }
      infoBucket := Some(infoBucket.value - {c});
      if justiceBucket.Some? {
        justiceBucket := Some(justiceBucket.value - {c});
      }
      ok := true;
    }
  }

  datatype Publication = Accepted | DoubleSpend | OtherError

  /** One attempt at a justice transaction. */
  datatype Round = Round(answers: nat -> Answer, fee: int, script: seq<byte>, signs: bool, publication: Publication)

  function AnswersOf(rounds: seq<Round>): (answers: seq<nat -> Answer>)
    ensures |answers| == |rounds|
  {
    if rounds == [] then [] else AnswersOf(rounds[..|rounds| - 1]) + [rounds[|rounds| - 1].answers]
  }

  /** The transaction of attempt `k`: it claims the outputs as rewritten by the attempts up to `k`. */
  function Attempt(outputs: seq<BreachedOutput>, rounds: seq<Round>, k: nat): Tx
    requires k < |rounds|
  {
    JusticeOf(Passes(Watch(outputs, {}), AnswersOf(rounds[..k + 1])).outputs, rounds[k].fee, rounds[k].script)
  }

  /** One input per output, in order, for the sum of the amounts less the fee. */
  predicate ClaimsAll(tx: Tx, outputs: seq<BreachedOutput>, fee: int, script: seq<byte>) {
    && |tx.inputs| == |outputs| && (forall i | 0 <= i < |outputs| :: tx.inputs[i].prev == outputs[i].op)
    && tx.value == Total(outputs) - fee && tx.script == script && Sane(tx)
  }

  /** The transaction is that of attempt `k`, and claims every output of the record. */
  ghost predicate IsAttempt(tx: Tx, outputs: seq<BreachedOutput>, rounds: seq<Round>, k: nat) {
    && k < |rounds| && tx == Attempt(outputs, rounds, k)
    && var w, answers := Watch(outputs, {}), AnswersOf(rounds[..k + 1]);
       && ClaimsAll(tx, Passes(w, answers).outputs, rounds[k].fee, rounds[k].script)
       && (DistinctOps(outputs) ==> tx.value + rounds[k].fee == ChainTotal(w, answers, |outputs|))
  }

  lemma AttemptClaims(outputs: seq<BreachedOutput>, rounds: seq<Round>, k: nat)
    requires k < |rounds| && AllRecognized(outputs) && Sane(Attempt(outputs, rounds, k))
    ensures IsAttempt(Attempt(outputs, rounds, k), outputs, rounds, k)
  {
    var answers := AnswersOf(rounds[..k + 1]);
    RetriesRecognized(Watch(outputs, {}), answers);
    JusticeSpendsAll(Passes(Watch(outputs, {}), answers).outputs, rounds[k].fee, rounds[k].script);
    if DistinctOps(outputs) {
      JusticePaysChainValue(Watch(outputs, {}), answers, rounds[k].fee, rounds[k].script);
    }
  }

  /** Every finalized transaction in `es` is the transaction of some attempt. */
  ghost predicate OnlyAttempts(es: seq<Event>, outputs: seq<BreachedOutput>, rounds: seq<Round>) {
    forall i | 0 <= i < |es| && es[i].FinalizeJustice? :: exists k: nat :: IsAttempt(es[i].tx, outputs, rounds, k)
  }

  lemma AppendAttempts(es: seq<Event>, fs: seq<Event>, outputs: seq<BreachedOutput>, rounds: seq<Round>)
    requires OnlyAttempts(es, outputs, rounds) && OnlyAttempts(fs, outputs, rounds)
    ensures OnlyAttempts(es + fs, outputs, rounds)
  {
    var all := es + fs;
    assert forall i | 0 <= i < |es| :: all[i] == es[i];
    assert forall i | |es| <= i < |all| :: all[i] == fs[i - |es|];
  }

  lemma OneMoreRound(start: seq<BreachedOutput>, rounds: seq<Round>, k: nat)
    requires k < |rounds|
    ensures var w := Passes(Watch(start, {}), AnswersOf(rounds[..k]));
            Passes(Watch(start, {}), AnswersOf(rounds[..k + 1])) == Pass(w, rounds[k].answers, |w.outputs|)
  {
    var all, some := AnswersOf(rounds[..k + 1]), AnswersOf(rounds[..k]);
    assert rounds[..k + 1][..k] == rounds[..k];
    assert all == some + [rounds[k].answers];
    assert all[..k] == some;
  }

  lemma OneAttempt(es: seq<Event>, outputs: seq<BreachedOutput>, rounds: seq<Round>, k: nat)
    requires k < |rounds| && |es| == 2 && es[0].FinalizeJustice? && !es[1].FinalizeJustice?
    requires IsAttempt(es[0].tx, outputs, rounds, k)
    ensures OnlyAttempts(es, outputs, rounds)
  {
  }

  lemma NoAttempts(es: seq<Event>, outputs: seq<BreachedOutput>, rounds: seq<Round>)
    requires forall e <- es :: !e.FinalizeJustice?
    ensures OnlyAttempts(es, outputs, rounds)
  {
    assert forall i | 0 <= i < |es| :: es[i] in es;
  }

  class Arbiter {
    const store: RetributionStore
    var open: set<OutPoint>
    var closing: set<OutPoint>
    var closed: set<OutPoint>
    var observers: set<OutPoint>
    ghost var sys: Sys

    ghost predicate Valid()
      reads this, store
    {
      && sys.retributions == store.Infos() && sys.justice == store.Justice()
      && sys.open == open && sys.closing == closing && sys.closed == closed
      && sys.observers == observers
      && Inv(sys)
    }

    constructor (store: RetributionStore, open: set<OutPoint>, closing: set<OutPoint>, closed: set<OutPoint>,
                 ghost sys: Sys)
      requires sys.phase.Down? && Inv(sys)
      requires sys.retributions == store.Infos() && sys.justice == store.Justice()
      requires sys.open == open && sys.closing == closing && sys.closed == closed
      ensures Valid() && this.store == store && this.sys == sys
    {
      this.store, this.sys := store, sys;
      this.open, this.closing, this.closed, this.observers := open, closing, closed, {};
    }

    /** One more step of the run that `es` records. */
    ghost method Step(e: Event, s0: Sys, es: seq<Event>) returns (es': seq<Event>)
      requires Inv(sys) && Enabled(sys, e) && Leads(s0, es, sys)
      modifies `sys
      ensures Inv(sys) && sys == Next(old(sys), e) && es' == es + [e] && Leads(s0, es', sys)
    {
      StepKeepsInv(sys, e);
      Extend(s0, es, sys, e);
      es' := es + [e];
      sys := Next(sys, e);
    }

    /**
      Drop the records of channels that are fully closed, then give every remaining record a task
      and every other open channel an observer.
    */
    method Start(subscribes: OutPoint -> bool, registers: OutPoint -> bool)
      returns (ok: bool, tasks: set<OutPoint>, ghost es: seq<Event>)
      requires Valid() && sys.phase.Down?
      modifies this, store
      ensures Leads(old(sys), es, sys)
      ensures ok ==> Valid() && sys.phase.Up? && tasks == sys.tasks.Keys
      ensures ok ==> tasks !! observers && tasks + observers == open + store.Infos().Keys
      ensures ok ==> closed !! store.Infos().Keys && sys.acked - closed <= tasks
      ensures open == old(open) && closing == old(closing) && closed == old(closed)
    {
      es := Step(Boot, old(sys), []);
      tasks := {};
      var infos := store.Infos();
      ghost var more;
      ok, infos, more := ReconcileAll(infos);
      RunAppend(old(sys), es, more);
      es := es + more;
      var watch;
      ok, watch := ChannelsToWatch(infos.Keys, subscribes);
      if !ok {
        return;
      }
      ok, tasks := SpawnTasks(infos.Keys, registers);
      if !ok {
        return;
      }
      Extend(old(sys), es, sys, Launch);
      es := es + [Launch];
      GoLive(watch, tasks);
    }

    /** The observers and tasks start together. */
    method GoLive(watch: set<OutPoint>, ghost tasks: set<OutPoint>)
      requires Valid() && sys.phase.Starting? && Stale(sys) == {}
      requires watch == open - store.Infos().Keys && tasks == store.Infos().Keys
      modifies `observers, `sys
      ensures Valid() && sys == Next(old(sys), Launch) && sys.tasks.Keys == tasks
      ensures tasks !! observers && tasks + observers == open + store.Infos().Keys
      ensures closed !! store.Infos().Keys && sys.acked - closed <= tasks
    {
      StepKeepsInv(sys, Launch);
      observers := watch;
      sys := Next(sys, Launch);
      assert sys.tasks.Keys == tasks;
      assert forall c <- store.Infos() :: c !in Stale(old(sys));
    }

    /** Remove the records of fully closed channels, from disk and from the list just loaded. */
    method ReconcileAll(loaded: map<OutPoint, RetributionInfo>)
      returns (ok: bool, infos: map<OutPoint, RetributionInfo>, ghost es: seq<Event>)
      requires Valid() && sys.phase.Starting? && loaded == store.Infos()
      modifies store, `sys
      ensures Valid() && sys.phase.Starting? && Leads(old(sys), es, sys)
      ensures ok && infos == store.Infos() && Stale(sys) == {}
    {
      ok, infos, es := true, loaded, [];
      var todo := closed;
      while todo != {}
        invariant ok && Valid() && sys.phase.Starting? && Leads(old(sys), es, sys)
        invariant infos == store.Infos() && todo <= closed
        invariant forall c <- closed - todo :: c !in infos
      {
        var c :| c in todo;
        todo := todo - {c};
        if c in infos {
          ok := store.Remove(c);
          es := Step(Reconcile(c), old(sys), es);
          infos := infos - {c};
        }
      }
      assert forall c :: c !in Stale(sys);
    }

    method ChannelsToWatch(breached: set<OutPoint>, subscribes: OutPoint -> bool)
      returns (ok: bool, watch: set<OutPoint>)
      ensures ok <==> forall c <- open - breached :: subscribes(c)
      ensures ok ==> watch == open - breached
    {
      watch := {};
      var todo := open;
      while todo != {}
        invariant todo <= open && watch == (open - todo) - breached
        invariant forall c <- watch :: subscribes(c)
      {
        var c :| c in todo;
        todo := todo - {c};
        if c in breached {
          continue;
        }
        if !subscribes(c) {
          return false, watch;
        }
        watch := watch + {c};
      }
      ok := true;
    }

    method SpawnTasks(breached: set<OutPoint>, registers: OutPoint -> bool) returns (ok: bool, tasks: set<OutPoint>)
      ensures ok <==> forall c <- breached :: registers(c)
      ensures ok ==> tasks == breached
    {
      tasks := {};
      var todo := breached;
      while todo != {}
        invariant todo <= breached && tasks == breached - todo
        invariant forall c <- tasks :: registers(c)
      {
        var c :| c in todo;
        if !registers(c) {
          return false, tasks;
        }
        todo, tasks := todo - {c}, tasks + {c};
      }
      ok := true;
    }

    /**
      An observer reports a breach: the record reaches the disk before the acknowledgement is sent.
      If it does not, the acknowledgement carries the error and nothing has changed.
    */
    method ObserveBreach(info: RetributionInfo, persists: bool) returns (ok: bool, ghost es: seq<Event>)
      requires Valid() && Enabled(sys, BreachSeen(info.chan, info))
      modifies this, store
      ensures Valid() && Leads(old(sys), es, sys) && ok == persists
      ensures ok ==> es == [BreachSeen(info.chan, info), Ack(info.chan)] && info.chan in sys.acked
      ensures ok ==> store.Infos() == old(store.Infos())[info.chan := info]
      ensures !ok ==> es == [] && sys == old(sys) && store.Infos() == old(store.Infos())
    {
      ok, es := persists, [];
      if !ok {
        return;
      }
      var c := info.chan;
      store.Add(info);
      es := Step(BreachSeen(c, info), old(sys), []);
      es := Step(Ack(c), old(sys), es);
    }

    /** The main loop takes over an acknowledged breach; a failed registration drops it until the next start. */
    method TakeBreach(c: OutPoint, registers: bool) returns (spawned: bool)
      requires Valid() && Enabled(sys, HandOff(c, registers))
      modifies `observers, `sys
      ensures Valid() && Leads(old(sys), [HandOff(c, registers)], sys)
      ensures spawned == registers && (spawned ==> c in sys.tasks && c !in observers)
      ensures !spawned ==> c !in sys.tasks && observers == old(observers) && c in store.Infos()
    {
      Extend(sys, [], sys, HandOff(c, registers));
      StepKeepsInv(sys, HandOff(c, registers));
      sys := Next(sys, HandOff(c, registers));
      if registers {
        observers := observers - {c};
      }
      spawned := registers;
    }

    /** Persist a justice transaction, then broadcast it. */
    method FinalizeAndPublish(c: OutPoint, tx: Tx, p: Publication) returns (again: bool, ghost es: seq<Event>)
      requires Valid() && Enabled(sys, FinalizeJustice(c, tx))
      modifies store, `sys
      ensures Valid() && Leads(old(sys), es, sys)
      ensures es == [FinalizeJustice(c, tx), RetributionRun.Publish(c, again)]
      ensures again == p.DoubleSpend? && sys.phase.Up? && c in sys.tasks
      ensures sys.tasks[c] == if again then Armed(None) else Published(tx)
      ensures store.Infos() == old(store.Infos())
    {
      store.Finalize(c, tx);
      es := Step(FinalizeJustice(c, tx), old(sys), []);
      again := p.DoubleSpend?;
      es := Step(RetributionRun.Publish(c, again), old(sys), es);
    }

    /**
      Attempt after attempt: rewrite the outputs that went to the second level, build, persist and
      broadcast, until the network no longer reports a double spend.
    */
    method RunAttempts(c: OutPoint, outputs: array<BreachedOutput>, rounds: seq<Round>)
      returns (ok: bool, ghost es: seq<Event>)
      requires Valid() && sys.phase.Up? && c in sys.tasks && sys.tasks[c] == Armed(None)
      requires c in store.Infos() && outputs[..] == store.Infos()[c].outputs
      modifies store, `sys, outputs
      ensures Valid() && sys.phase.Up? && c in sys.tasks && Leads(old(sys), es, sys)
      ensures OnlyAttempts(es, old(store.Infos()[c].outputs), rounds)
      ensures ok ==> sys.tasks[c].Published?
      ensures !ok ==> sys.tasks[c].Armed?
    {
      es := [];
      var cache: set<OutPoint> := {};
      ghost var start := outputs[..];
      assert AllRecognized(start);
      for k := 0 to |rounds|
        invariant Valid() && sys.phase.Up? && c in sys.tasks && sys.tasks[c] == Armed(None) && Leads(old(sys), es, sys)
        invariant Watch(outputs[..], cache) == Passes(Watch(start, {}), AnswersOf(rounds[..k]))
        invariant OnlyAttempts(es, start, rounds)
      {
        var again;
        ghost var more;
        ok, again, cache, more := TryOnce(c, outputs, cache, start, rounds, k);
        RunAppend(old(sys), es, more);
        AppendAttempts(es, more, start, rounds);
        es := es + more;
        if !ok || !again {
          return;
        }
      }
      ok := false;
    }

    /** One attempt: rewrite, build, persist, broadcast. */
    method TryOnce(c: OutPoint, outputs: array<BreachedOutput>, cache: set<OutPoint>, ghost start: seq<BreachedOutput>,
                   rounds: seq<Round>, k: nat)
      returns (ok: bool, again: bool, live: set<OutPoint>, ghost es: seq<Event>)
      requires Valid() && sys.phase.Up? && c in sys.tasks && sys.tasks[c] == Armed(None)
      requires k < |rounds| && AllRecognized(start)
      requires Watch(outputs[..], cache) == Passes(Watch(start, {}), AnswersOf(rounds[..k]))
      modifies store, `sys, outputs
      ensures Valid() && sys.phase.Up? && c in sys.tasks && Leads(old(sys), es, sys) && OnlyAttempts(es, start, rounds)
      ensures if ok && !again then sys.tasks[c].Published? else sys.tasks[c] == Armed(None)
      ensures ok ==> Watch(outputs[..], live) == Passes(Watch(start, {}), AnswersOf(rounds[..k + 1]))
    {
      es, again := [], false;
      var tx;
      tx, live := BuildAttempt(outputs, cache, start, rounds, k);
      ok := tx.Some?;
      if ok {
        again, es := FinalizeAndPublish(c, tx.value, rounds[k].publication);
        AttemptClaims(start, rounds, k);
        OneAttempt(es, start, rounds, k);
      }
    }

    /** One attempt up to the signed transaction. */
    method BuildAttempt(outputs: array<BreachedOutput>, cache: set<OutPoint>, ghost start: seq<BreachedOutput>,
                        rounds: seq<Round>, k: nat)
      returns (tx: Option<Tx>, live: set<OutPoint>)
      requires k < |rounds| && Watch(outputs[..], cache) == Passes(Watch(start, {}), AnswersOf(rounds[..k]))
      modifies outputs
      ensures tx.Some? ==> tx.value == Attempt(start, rounds, k) && Sane(tx.value)
      ensures tx.Some? ==> Watch(outputs[..], live) == Passes(Watch(start, {}), AnswersOf(rounds[..k + 1]))
    {
      OneMoreRound(start, rounds, k);
      var ok;
      ok, live := CheckSecondLevel(outputs, cache, rounds[k].answers);
      if !ok {
        return None, live;
      }
      tx := CreateJusticeTx(outputs, rounds[k].fee, rounds[k].script);
      if !rounds[k].signs {
        tx := None;
      }
    }

    /** Once the justice transaction has confirmed, mark the channel closed, then remove the record. */
    method FinishRetribution(c: OutPoint, sent: bool, confirms: bool) returns (done: bool, ghost es: seq<Event>)
      requires Valid() && sys.phase.Up? && c in sys.tasks && !sys.tasks[c].Closing?
      requires sent ==> sys.tasks[c].Published?
      modifies this, store
      ensures Valid() && Leads(old(sys), es, sys)
      ensures forall e <- es :: e == MarkClosed(c) || e == RetributionRun.Remove(c) || e == TaskFails(c)
      ensures done <==> sent && confirms && c in old(closing)
      ensures done ==> c in closed && store.Infos() == old(store.Infos()) - {c} && c !in store.Justice()
      ensures !done ==> c !in closed && c in store.Infos() && store.Justice() == old(store.Justice())
    {
      assert TaskOk(sys, c, sys.tasks[c]);
      done := sent && confirms && c in closing;
      if done {
        es := CloseAndRemove(c);
      } else {
        es := Step(TaskFails(c), old(sys), []);
      }
    }

    method CloseAndRemove(c: OutPoint) returns (ghost es: seq<Event>)
      requires Valid() && Enabled(sys, MarkClosed(c))
      modifies this, store
      ensures Valid() && es == [MarkClosed(c), RetributionRun.Remove(c)] && Leads(old(sys), es, sys)
      ensures c in closed && store.Infos() == old(store.Infos()) - {c} && c !in store.Justice()
    {
      assert TaskOk(sys, c, sys.tasks[c]);
      es := MarkFullyClosed(c);
      var _ := store.Remove(c);
      es := Step(RetributionRun.Remove(c), old(sys), es);
    }

    method MarkFullyClosed(c: OutPoint) returns (ghost es: seq<Event>)
      requires Valid() && Enabled(sys, MarkClosed(c))
      modifies this
      ensures Valid() && es == [MarkClosed(c)] && Leads(old(sys), es, sys) && sys == Next(old(sys), MarkClosed(c))
    {
      closing, closed := closing - {c}, closed + {c};
      es := Step(MarkClosed(c), old(sys), []);
    }

    /**
      The whole task of a channel once the breach has confirmed. A transaction finalized earlier is
      broadcast as it is; only if that is a double spend are new ones built. The record leaves the
      disk exactly when the channel is marked fully closed.
    */
    method ExactRetribution(c: OutPoint, outputs: array<BreachedOutput>, first: Publication, rounds: seq<Round>,
                            confirms: bool)
      returns (done: bool, ghost es: seq<Event>)
      requires Valid() && Enabled(sys, BreachConfirmed(c))
      requires c in store.Infos() && outputs[..] == store.Infos()[c].outputs
      modifies this, store, outputs
      ensures Valid() && Leads(old(sys), es, sys) && OnlyAttempts(es, old(store.Infos()[c].outputs), rounds)
      ensures done ==> c in closed && c !in store.Infos() && c !in store.Justice()
      ensures !done ==> c !in closed && c in store.Infos()
    {
      var sent;
      ghost var more;
      sent, es := ResendStored(c, first);
      NoAttempts(es, outputs[..], rounds);
      if !sent {
        sent, more := RunAttempts(c, outputs, rounds);
        RunAppend(old(sys), es, more);
        AppendAttempts(es, more, old(outputs[..]), rounds);
        es := es + more;
      }
      done, more := FinishRetribution(c, sent, confirms);
      RunAppend(old(sys), es, more);
      NoAttempts(more, old(outputs[..]), rounds);
      AppendAttempts(es, more, old(outputs[..]), rounds);
      es := es + more;
    }

    /** Broadcast what an earlier goroutine has finalized, if anything. */
    method ResendStored(c: OutPoint, p: Publication) returns (sent: bool, ghost es: seq<Event>)
      requires Valid() && Enabled(sys, BreachConfirmed(c))
      modifies `sys
      ensures Valid() && sys.phase.Up? && c in sys.tasks && Leads(old(sys), es, sys)
      ensures forall e <- es :: !e.FinalizeJustice?
      ensures sent <==> c in store.Justice() && !p.DoubleSpend?
      ensures if sent then sys.tasks[c] == Published(store.Justice()[c]) else sys.tasks[c] == Armed(None)
    {
      es := Step(BreachConfirmed(c), old(sys), []);
      var finalTx := store.GetFinalizedTxn(c);
      sent := false;
      if finalTx.Some? {
        sent := !p.DoubleSpend?;
        es := Step(RetributionRun.Publish(c, !sent), old(sys), es);
      }
    }
  }
}
