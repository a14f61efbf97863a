/** The channel-opening methods of the funding manager: each call is a legal stretch of a run. */
module FundingManager {
  import opened FundingStages

  /** `es` takes the system from `s` to `s'`. */
  ghost predicate Reaches(s: Sys, es: seq<Event>, s': Sys) {
    Legal(s, es) && Exec(s, es) == s'
  }

  /** And every step is in order. */
  ghost predicate Leads(s: Sys, es: seq<Event>, s': Sys) {
    Reaches(s, es, s') && AllInOrder(s, es)
  }

  lemma {:induction false} Append(s: Sys, es: seq<Event>, s1: Sys, fs: seq<Event>, s2: Sys)
    requires Reaches(s, es, s1) && Reaches(s1, fs, s2)
    ensures Reaches(s, es + fs, s2)
    ensures Leads(s, es, s1) && Leads(s1, fs, s2) ==> Leads(s, es + fs, s2)
    decreases |es|
  {
    if es == [] {
      assert es + fs == fs;
    } else {
      Append(Next(s, es[0]), es[1..], s1, fs, s2);
      assert (es + fs)[0] == es[0] && (es + fs)[1..] == es[1..] + fs;
    }
  }

  lemma SingleStep(s: Sys, e: Event)
    requires Enabled(s, e)
    ensures Reaches(s, [e], Next(s, e)) && (InOrder(s, e) ==> Leads(s, [e], Next(s, e)))
  {
    var s1 := Next(s, e);
    assert [e][1..] == [];
    assert Legal(s1, [e][1..]) && AllInOrder(s1, [e][1..]) && Exec(s1, [e][1..]) == s1;
  }

  /** How the router takes an announcement. */
  datatype Gossip = Taken | Outdated | Ignored | Rejected

  datatype Env = Env(sends: seq<bool>, ann: Gossip, update: Gossip, public: bool, confirms: bool, proves: bool)

  /** The channel has had its graph step and is in no earlier stage. */
  predicate Safe(s: Sys, c: Channel) {
    c in s.routed && !EarlyStage(s, c)
  }

  class Manager {
    var openingStates: map<Channel, Stage>
    ghost var sys: Sys

    ghost predicate Valid()
      reads this
    {
      sys.stages == openingStates && Inv(sys)
    }

    constructor ()
      ensures Valid() && sys == Empty
    {
      openingStates := map[];
      sys := Empty;
    }

    /** One more step of the run that `es` records. */
    ghost method Step(e: Event, s0: Sys, es: seq<Event>) returns (es': seq<Event>)
      requires Enabled(sys, e) && Reaches(s0, es, sys)
      modifies `sys
      ensures sys == Next(old(sys), e) && es' == es + [e] && Reaches(s0, es', sys)
      ensures old(Inv(sys)) && InOrder(old(sys), e) ==> Inv(sys)
      ensures Leads(s0, es, old(sys)) && InOrder(old(sys), e) ==> Leads(s0, es', sys)
    {
      if Inv(sys) && InOrder(sys, e) {
        StepKeepsInv(sys, e);
      }
      SingleStep(sys, e);
      Append(s0, es, sys, [e], Next(sys, e));
      es' := es + [e];
      sys := Next(sys, e);
    }

    /** Try again each time the peer comes online; only after a successful send is the stage saved. */
    method SendFundingLocked(c: Channel, env: Env) returns (ok: bool, ghost es: seq<Event>)
      requires Valid() && At(sys, c, Sending)
      modifies this
      ensures Valid() && Leads(old(sys), es, sys)
      ensures ok <==> exists i :: 0 <= i < |env.sends| && env.sends[i]
      ensures ok ==> At(sys, c, Routing) && c in sys.locked
      ensures ok ==> openingStates == old(openingStates)[c := FundingLockedSent]
      ensures !ok ==> sys == old(sys) && openingStates == old(openingStates)
    {
      es := [];
      var i := 0;
      while i < |env.sends| && !env.sends[i]
        invariant 0 <= i <= |env.sends| && forall j | 0 <= j < i :: !env.sends[j]
      {
        i := i + 1;
      }
      ok := i < |env.sends|;
      if ok {
        es := Step(SendLocked(c), old(sys), es);
        openingStates := openingStates[c := FundingLockedSent];
        es := Step(SaveLocked(c), old(sys), es);
      }
    }

    /** The router may refuse an announcement as outdated or ignored; any other error ends the attempt. */
    method AddToRouterGraph(c: Channel, env: Env) returns (ok: bool, ghost es: seq<Event>)
      requires Valid() && At(sys, c, Routing)
      modifies this
      ensures Valid() && Leads(old(sys), es, sys)
      ensures ok <==> !env.ann.Rejected? && !env.update.Rejected?
      ensures ok ==> At(sys, c, Announcing(c)) && c in sys.routed
      ensures ok ==> openingStates == old(openingStates)[c := AddedToRouterGraph]
      ensures !ok ==> c in sys.workers && openingStates == old(openingStates)
    {
      es := [];
      ok := !env.ann.Rejected?;
      if !ok {
        return;
      }
      es := Step(AddToGraph(c), old(sys), es);
      ok := !env.update.Rejected?;
      if ok {
        openingStates := openingStates[c := AddedToRouterGraph];
        es := Step(SaveRouted(c), old(sys), es);
      }
    }

    /**
      The worker of `c` finishes the channel it was given: a public one waits for its confirmations
      and is announced; the stage is deleted last.
    */
    method AnnAfterSixConfs(c: Channel, target: Channel, env: Env) returns (ok: bool, ghost es: seq<Event>)
      requires sys.stages == openingStates && At(sys, c, Announcing(target))
      modifies this
      ensures sys.stages == openingStates && Reaches(old(sys), es, sys)
      ensures ok <==> !env.public || (env.confirms && env.proves)
      ensures ok ==> openingStates == old(openingStates) - {target} && (env.public ==> target in sys.proven)
      ensures !ok ==> sys == old(sys) && openingStates == old(openingStates)
      ensures sys.routed == old(sys.routed) && sys.locked == old(sys.locked)
      ensures old(Inv(sys)) && Safe(old(sys), target) ==> Inv(sys) && Leads(old(sys), es, sys)
    {
      es := [];
      if env.public && !(env.confirms && env.proves) {
        return false, es;
      }
      es := Step(Announce(c, env.public), old(sys), es);
      openingStates := openingStates - {target};
      es := Step(Delete(c), old(sys), es);
      ok := true;
    }

    /** What every way of finishing an opening promises: the stage is gone exactly when all went well. */
    twostate predicate Finished(c: Channel, public: bool, ok: bool)
      reads this
    {
      && (forall d | d != c :: d in openingStates <==> d in old(openingStates))
      && (forall d <- openingStates | d != c :: openingStates[d] == old(openingStates)[d])
      && (ok <==> c !in openingStates)
      && (ok ==> c in sys.locked && c in sys.routed && (public ==> c in sys.proven))
    }

    /** Add the channel to the graph, then announce it. */
    method RouteAndAnnounce(c: Channel, env: Env) returns (ok: bool, ghost es: seq<Event>)
      requires Valid() && At(sys, c, Routing)
      modifies this
      ensures Valid() && Leads(old(sys), es, sys) && Finished(c, env.public, ok)
    {
      assert WorkerFits(sys, c, sys.workers[c]);
      ok, es := AddToRouterGraph(c, env);
      if ok {
        ghost var mid, more := sys, [];
        ok, more := AnnAfterSixConfs(c, c, env);
        Append(old(sys), es, mid, more, sys);
        es := es + more;
      }
    }

    method HandleFundingConfirmation(c: Channel, env: Env) returns (ok: bool, ghost es: seq<Event>)
      requires Valid() && At(sys, c, Sending)
      modifies this
      ensures Valid() && Leads(old(sys), es, sys) && Finished(c, env.public, ok)
    {
      assert WorkerFits(sys, c, sys.workers[c]);
      ok, es := SendFundingLocked(c, env);
      if ok {
        ghost var mid, more := sys, [];
        ok, more := RouteAndAnnounce(c, env);
        Append(old(sys), es, mid, more, sys);
        es := es + more;
      }
    }

    /** The stage that a restart finds, as far as the last stage is handed to another channel's record. */
    predicate Misdirected(c: Channel, captured: Channel)
      reads this
    {
      c in openingStates && openingStates[c] == AddedToRouterGraph && captured != c
    }

    /**
      After a restart, go on from the stored stage. The goroutine for the last stage works on the
      channel that the loop variable holds by then: if that is another one, it is that channel whose
      stage is deleted, and `c` keeps its own.
    */
    method ResumeOpening(c: Channel, captured: Channel, env: Env) returns (ok: bool, ghost es: seq<Event>)
      requires Valid() && c in openingStates && c !in sys.workers
      modifies this
      ensures sys.stages == openingStates && Reaches(old(sys), es, sys)
      ensures !old(Misdirected(c, captured)) ==> Valid() && Leads(old(sys), es, sys) && Finished(c, env.public, ok)
      ensures old(Misdirected(c, captured)) ==>
                openingStates == if ok then old(openingStates) - {captured} else old(openingStates)
      ensures ok ==> (Finished(c, env.public, ok) <==> !old(Misdirected(c, captured)))
    {
      es := Step(Resume(c, captured), old(sys), []);
      ghost var mid, more := sys, [];
      match openingStates[c] {
        case MarkedOpen => ok, more := HandleFundingConfirmation(c, env);
        case FundingLockedSent => ok, more := RouteAndAnnounce(c, env);
        case AddedToRouterGraph =>
          assert Backed(sys, c);
          ok, more := AnnAfterSixConfs(c, captured, env);
      }
      Append(old(sys), es, mid, more, sys);
      es := es + more;
    }
  }
}
