/**
  Concurrent handlers of the FundingLocked message: a barrier per channel makes checking for a
  duplicate and storing the revocation point one action.
*/
module FundingLocked {
  import opened Chain

  type Channel = OutPoint

  /** A handler holding the barrier: before it has looked at the channel, or after it saw no revocation point. */
  datatype Handler = Entered(chan: Channel) | Checked(chan: Channel) | Finished(chan: Channel)

  datatype Sys = Sys(
    barriers: set<Channel>,
    handlers: map<nat, Handler>,
    revocations: set<Channel>,       // on disk: channels that have the remote's next revocation point
    inits: multiset<Channel>)        // history: successful calls of InitNextRevocation

  datatype Event =
    | Receive(id: nat, chan: Channel)
    | Look(id: nat, found: bool)
    | Init(id: nat, ok: bool)
    | Leave(id: nat)
    | Crash

  predicate Enabled(s: Sys, e: Event) {
    match e
    case Receive(id, _) => id !in s.handlers
    case Look(id, _) => id in s.handlers && s.handlers[id].Entered?
    case Init(id, _) => id in s.handlers && s.handlers[id].Checked?
    case Leave(id) => id in s.handlers && s.handlers[id].Finished?
    case Crash => true
  }

  function Next(s: Sys, e: Event): Sys
    requires Enabled(s, e)
  {
    match e
    case Receive(id, c) =>
      if c in s.barriers then s
      else s.(barriers := s.barriers + {c}, handlers := s.handlers[id := Entered(c)])
    case Look(id, found) =>
      var c := s.handlers[id].chan;
      s.(handlers := s.handlers[id := if found && c !in s.revocations then Checked(c) else Finished(c)])
    case Init(id, ok) =>
      var c := s.handlers[id].chan;
      var s1 := s.(handlers := s.handlers[id := Finished(c)]);
      if ok then s1.(revocations := s.revocations + {c}, inits := s.inits + multiset{c}) else s1
    case Leave(id) => s.(barriers := s.barriers - {s.handlers[id].chan}, handlers := s.handlers - {id})
    case Crash => s.(barriers := {}, handlers := map[])
  }

  predicate Exclusive(s: Sys) {
    forall i, j | i in s.handlers && j in s.handlers && s.handlers[i].chan == s.handlers[j].chan :: i == j
  }

  predicate Guarded(s: Sys) {
    forall i <- s.handlers ::
      && s.handlers[i].chan in s.barriers
      && (s.handlers[i].Checked? ==> s.handlers[i].chan !in s.revocations)
  }

  ghost predicate InitOnce(s: Sys) {
    forall c :: s.inits[c] <= 1 && (s.inits[c] == 1 ==> c in s.revocations)
  }

  ghost predicate Inv(s: Sys) {
    Exclusive(s) && Guarded(s) && InitOnce(s)
  }

  lemma StepKeepsInv(s: Sys, e: Event)
    requires Inv(s) && Enabled(s, e)
    ensures Inv(Next(s, e))
  {
    var s' := Next(s, e);
    if !e.Crash? && e.id in s.handlers {
      assert forall i <- s.handlers | i != e.id :: s.handlers[i].chan != s.handlers[e.id].chan;
    }
  }

  predicate Legal(s: Sys, es: seq<Event>)
    decreases |es|
  {
    es == [] || (Enabled(s, es[0]) && Legal(Next(s, es[0]), es[1..]))
  }

  function Exec(s: Sys, es: seq<Event>): Sys
    requires Legal(s, es)
    decreases |es|
  {
    if es == [] then s else Exec(Next(s, es[0]), es[1..])
  }

  lemma {:induction false} RunKeepsInv(s: Sys, es: seq<Event>)
    requires Inv(s) && Legal(s, es)
    ensures Inv(Exec(s, es))
    decreases |es|
  {
    if es != [] {
      StepKeepsInv(s, es[0]);
      RunKeepsInv(Next(s, es[0]), es[1..]);
    }
  }

  /** Under every interleaving, with crashes: one handler per channel at a time, one initialization per channel ever. */
  lemma AtMostOnce(revocations: set<Channel>, es: seq<Event>)
    requires Legal(Sys({}, map[], revocations, multiset{}), es)
    ensures var s := Exec(Sys({}, map[], revocations, multiset{}), es);
            && Exclusive(s)
            && forall c :: s.inits[c] <= 1 && (c in revocations ==> s.inits[c] == 0)
  {
    var s := Sys({}, map[], revocations, multiset{});
    RunKeepsInv(s, es);
    NeverAgain(s, es);
  }

  /** A channel that has its revocation point keeps it and is not initialized again. */
  lemma {:induction false} NeverAgain(s: Sys, es: seq<Event>)
    requires Inv(s) && Legal(s, es)
    ensures forall c <- s.revocations :: c in Exec(s, es).revocations && Exec(s, es).inits[c] == s.inits[c]
    decreases |es|
  {
    if es != [] {
      StepKeepsInv(s, es[0]);
      NeverAgain(Next(s, es[0]), es[1..]);
    }
  }

  /**
    A message for a channel that exists and has no revocation point yet is handled to the end: the
    point is stored, once, and afterwards the channel is free for the next handler.
  */
  lemma MessageIsHandled(s: Sys, id: nat, c: Channel)
    requires Inv(s) && id !in s.handlers && c !in s.barriers && c !in s.revocations
    ensures var es := [Receive(id, c)] + ([Look(id, true)] + ([Init(id, true)] + [Leave(id)]));
            && Legal(s, es)
            && Exec(s, es) == s.(revocations := s.revocations + {c}, inits := s.inits + multiset{c})
  {
    var s1 := Next(s, Receive(id, c));
    var s2 := Next(s1, Look(id, true));
    var s3 := Next(s2, Init(id, true));
    var s4 := Next(s3, Leave(id));
    assert forall i <- s.handlers :: s.handlers[i].chan != c;
    assert s4.handlers == s.handlers && s4.barriers == s.barriers;
    LegalCons(s3, Leave(id), []);
    assert [Leave(id)] + [] == [Leave(id)];
    LegalCons(s2, Init(id, true), [Leave(id)]);
    LegalCons(s1, Look(id, true), [Init(id, true)] + [Leave(id)]);
    LegalCons(s, Receive(id, c), [Look(id, true)] + ([Init(id, true)] + [Leave(id)]));
  }

  lemma LegalCons(s: Sys, e: Event, es: seq<Event>)
    requires Enabled(s, e) && Legal(Next(s, e), es)
    ensures Legal(s, [e] + es) && Exec(s, [e] + es) == Exec(Next(s, e), es)
  {
    assert ([e] + es)[1..] == es;
  }
}
