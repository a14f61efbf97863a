/**
  The bounded in-order message stream of a peer: any number of producers, one consumer, a slot
  semaphore and a condition variable, under every interleaving before shutdown.
*/
module MsgStream {

  /** A producer inside AddMsg: with a slot, or with its message queued but the consumer not signalled yet. */
  datatype Producer<T> = Holding(msg: T) | Signalling

  /** The consumer: about to test the queue, asleep on the condition, applying, or giving its slot back. */
  datatype Consumer<T> = Testing | Asleep | Applying(msg: T) | Returning

  datatype Stream<T> = Stream(
    bufSize: nat,
    free: nat,
    producers: map<nat, Producer<T>>,
    msgs: seq<T>,
    consumer: Consumer<T>,
    appended: seq<T>,    // history: the order in which messages entered the queue
    applied: seq<T>)     // history: the messages that have been applied

  datatype Event<T> =
    | TakeSlot(pid: nat, msg: T)
    | Append(pid: nat)
    | Signal(pid: nat)
    | Test
    | FinishApply
    | ReturnSlot

  predicate Enabled<T>(s: Stream<T>, e: Event<T>) {
    match e
    case TakeSlot(pid, _) => pid !in s.producers && s.free > 0
    case Append(pid) => pid in s.producers && s.producers[pid].Holding?
    case Signal(pid) => pid in s.producers && s.producers[pid].Signalling?
    case Test => s.consumer.Testing?
    case FinishApply => s.consumer.Applying?
    case ReturnSlot => s.consumer.Returning? && s.free < s.bufSize
  }

  function Next<T>(s: Stream<T>, e: Event<T>): Stream<T>
    requires Enabled(s, e)
  {
    match e
    case TakeSlot(pid, msg) => s.(free := s.free - 1, producers := s.producers[pid := Holding(msg)])
    case Append(pid) =>
      var msg := s.producers[pid].msg;
      s.(msgs := s.msgs + [msg], appended := s.appended + [msg], producers := s.producers[pid := Signalling])
    case Signal(pid) =>
      s.(producers := s.producers - {pid}, consumer := if s.consumer.Asleep? then Testing else s.consumer)
    case Test =>
      if s.msgs == [] then s.(consumer := Asleep)
      else s.(msgs := s.msgs[1..], consumer := Applying(s.msgs[0]))
    case FinishApply => s.(applied := s.applied + [s.consumer.msg], consumer := Returning)
    case ReturnSlot => s.(free := s.free + 1, consumer := Testing)
  }

  /** The producers that own a slot but have not queued their message yet. */
  function Holders<T>(s: Stream<T>): set<nat> {
    set pid | pid in s.producers && s.producers[pid].Holding?
  }

  function InProgress<T>(s: Stream<T>): seq<T> {
    if s.consumer.Applying? then [s.consumer.msg] else []
  }

  /** A slot that the consumer holds on behalf of the message it took. */
  function Busy<T>(s: Stream<T>): nat {
    if s.consumer.Applying? || s.consumer.Returning? then 1 else 0
  }

  predicate SlotsConserved<T>(s: Stream<T>) {
    s.free + |Holders(s)| + |s.msgs| + Busy(s) == s.bufSize
  }

  predicate InOrder<T(==)>(s: Stream<T>) {
    s.applied + InProgress(s) + s.msgs == s.appended
  }

  /** A sleeping consumer with work to do is about to be woken. */
  predicate NoLostWakeup<T>(s: Stream<T>) {
    s.consumer.Asleep? && s.msgs != [] ==> exists pid <- s.producers :: s.producers[pid].Signalling?
  }

  predicate Inv<T(==)>(s: Stream<T>) {
    SlotsConserved(s) && InOrder(s) && NoLostWakeup(s)
  }

  predicate Started<T(==)>(s: Stream<T>) {
    s == Stream(s.bufSize, s.bufSize, map[], [], Testing, [], [])
  }

  lemma HoldersTake<T>(s: Stream<T>, pid: nat, msg: T)
    requires Enabled(s, TakeSlot(pid, msg))
    ensures Holders(Next(s, TakeSlot(pid, msg))) == Holders(s) + {pid} && pid !in Holders(s)
  {
  }

  lemma HoldersAppend<T>(s: Stream<T>, pid: nat)
    requires Enabled(s, Append(pid))
    ensures Holders(Next(s, Append(pid))) == Holders(s) - {pid} && pid in Holders(s)
  {
  }

  lemma HoldersSame<T>(s: Stream<T>, e: Event<T>)
    requires Enabled(s, e) && !e.TakeSlot? && !e.Append?
    ensures Holders(Next(s, e)) == Holders(s)
  {
    var s' := Next(s, e);
    assert forall pid :: pid in Holders(s') <==> pid in Holders(s);
  }

  lemma StepKeepsSlots<T>(s: Stream<T>, e: Event<T>)
    requires SlotsConserved(s) && Enabled(s, e)
    ensures SlotsConserved(Next(s, e))
  {
    match e
    case TakeSlot(pid, msg) => HoldersTake(s, pid, msg);
    case Append(pid) => HoldersAppend(s, pid);
    case _ => HoldersSame(s, e);
  }

  lemma StepKeepsOrder<T>(s: Stream<T>, e: Event<T>)
    requires InOrder(s) && Enabled(s, e)
    ensures InOrder(Next(s, e))
  {
    var s' := Next(s, e);
    match e
    case Append(pid) =>
      var msg := s.producers[pid].msg;
      assert s'.applied + InProgress(s') + s'.msgs == (s.applied + InProgress(s) + s.msgs) + [msg];
    case Test =>
      if s.msgs != [] {
        assert s.msgs == [s.msgs[0]] + s.msgs[1..];
      }
    case _ =>
  }

  lemma StepKeepsWakeup<T>(s: Stream<T>, e: Event<T>)
    requires NoLostWakeup(s) && Enabled(s, e)
    ensures NoLostWakeup(Next(s, e))
  {
    var s' := Next(s, e);
    if s'.consumer.Asleep? && s'.msgs != [] {
      if e.Append? {
        assert e.pid in s'.producers && s'.producers[e.pid].Signalling?;
      } else {
        var pid :| pid in s.producers && s.producers[pid].Signalling?;
        assert pid in s'.producers && s'.producers[pid].Signalling?;
      }
    }
  }

  lemma StepKeepsInv<T>(s: Stream<T>, e: Event<T>)
    requires Inv(s) && Enabled(s, e)
    ensures Inv(Next(s, e))
  {
    StepKeepsSlots(s, e);
    StepKeepsOrder(s, e);
    StepKeepsWakeup(s, e);
  }

  predicate Legal<T>(s: Stream<T>, es: seq<Event<T>>)
    decreases |es|
  {
    es == [] || (Enabled(s, es[0]) && Legal(Next(s, es[0]), es[1..]))
  }

  function Exec<T>(s: Stream<T>, es: seq<Event<T>>): Stream<T>
    requires Legal(s, es)
    decreases |es|
  {
    if es == [] then s else Exec(Next(s, es[0]), es[1..])
  }

  lemma {:induction false} RunKeepsInv<T>(s: Stream<T>, es: seq<Event<T>>)
    requires Inv(s) && Legal(s, es)
    ensures Inv(Exec(s, es)) && Exec(s, es).bufSize == s.bufSize
    decreases |es|
  {
    if es != [] {
      StepKeepsInv(s, es[0]);
      RunKeepsInv(Next(s, es[0]), es[1..]);
    }
  }

  /** Work that has entered the stream and has not been finished. */
  predicate Unfinished<T>(s: Stream<T>) {
    Holders(s) != {} || s.msgs != [] || s.consumer.Applying? || s.consumer.Returning?
  }

  predicate OwnStep<T>(s: Stream<T>, e: Event<T>) {
    !e.TakeSlot? && Enabled(s, e)
  }

  /** As long as there is unfinished work some party can step without a new slot being taken. */
  lemma Progress<T>(s: Stream<T>)
    requires Inv(s) && Unfinished(s)
    ensures exists e :: OwnStep(s, e)
  {
    match s.consumer
    case Testing => assert OwnStep(s, Test);
    case Applying(_) => assert OwnStep(s, FinishApply);
    case Returning => assert OwnStep(s, ReturnSlot);
    case Asleep =>
      if s.msgs != [] {
        var pid :| pid in s.producers && s.producers[pid].Signalling?;
        assert OwnStep(s, Signal(pid));
      } else {
        var pid :| pid in Holders(s);
        assert OwnStep(s, Append(pid));
      }
  }

  /**
    For every interleaving: slots are conserved, so the queue never outgrows the buffer and
    returning a slot never blocks; messages are applied in the order they were queued; and the
    stream never gets stuck with work left.
  */
  lemma StreamIsBoundedAndOrdered<T>(s: Stream<T>, es: seq<Event<T>>)
    requires Started(s) && Legal(s, es)
    ensures var s' := Exec(s, es);
            && SlotsConserved(s') && |s'.msgs| <= s.bufSize && InOrder(s')
            && (s'.consumer.Returning? ==> Enabled(s', ReturnSlot))
            && (Unfinished(s') ==> exists e :: OwnStep(s', e))
  {
    assert Holders(s) == {};
    RunKeepsInv(s, es);
    if Unfinished(Exec(s, es)) {
      Progress(Exec(s, es));
    }
  }

  /****** The object ******/

  class MessageStream<T(!new, ==)> {
    const bufSize: nat
    var sema: nat             // tokens in the producer semaphore
    var msgs: seq<T>
    ghost var state: Stream<T>

    ghost predicate Valid()
      reads this
    {
      Inv(state) && state.bufSize == bufSize && state.free == sema && state.msgs == msgs
    }

    /** Fill the semaphore token by token. */
    constructor (size: nat)
      ensures Valid() && Started(state) && bufSize == size
    {
      bufSize := size;
      msgs := [];
      sema := 0;
      new;
      for i := 0 to size
        invariant sema == i && msgs == [] && bufSize == size
      {
        sema := sema + 1;
      }
      state := Stream(size, size, map[], [], Testing, [], []);
      assert Holders(state) == {};
    }

    method AcquireSlot(pid: nat, msg: T) returns (ok: bool)
      requires Valid() && pid !in state.producers
      modifies this
      ensures Valid() && ok == (old(state).free > 0)
      ensures state == if ok then Next(old(state), TakeSlot(pid, msg)) else old(state)
    {
      ok := sema > 0;
      if ok {
        StepKeepsInv(state, TakeSlot(pid, msg));
        sema := sema - 1;
        state := Next(state, TakeSlot(pid, msg));
      }
    }

    method AppendMsg(pid: nat, msg: T)
      requires Valid() && pid in state.producers && state.producers[pid] == Holding(msg)
      modifies this
      ensures Valid() && state == Next(old(state), Append(pid)) && msgs == old(msgs) + [msg]
    {
      StepKeepsInv(state, Append(pid));
      msgs := msgs + [msg];
      state := Next(state, Append(pid));
    }

    /** Under the lock: sleep on an empty queue, otherwise take the oldest message. */
    method TakeFront() returns (taken: bool, front: seq<T>)
      requires Valid() && state.consumer.Testing?
      modifies this
      ensures Valid() && state == Next(old(state), Test)
      ensures taken <==> old(msgs) != []
      ensures taken ==> front == old(msgs)[..1] && msgs == old(msgs)[1..] && state.consumer == Applying(front[0])
    {
      StepKeepsInv(state, Test);
      taken, front := false, [];
      if |msgs| > 0 {
        taken, front := true, msgs[..1];
        msgs := msgs[1..];
      }
      state := Next(state, Test);
    }

    /** The send into the semaphore channel always finds room. */
    method GiveSlotBack()
      requires Valid() && state.consumer.Returning?
      modifies this
      ensures Valid() && Enabled(old(state), ReturnSlot) && state == Next(old(state), ReturnSlot)
      ensures sema <= bufSize
    {
      StepKeepsInv(state, ReturnSlot);
      sema := sema + 1;
      state := Next(state, ReturnSlot);
    }
  }
}
