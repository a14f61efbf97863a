/**
  Two closers joined by an in-order link. Every delivery schedule agrees on one closing
  transaction and stops, exactly when the two ideal fees are not too small and too far apart.
*/
module CloseAgreement {
  import opened CloseNegotiation

  /** Two closers and the messages in flight to each of them. */
  datatype Net = Net(a: Closer, b: Closer, toA: seq<Msg>, toB: seq<Msg>)

  datatype Event = ShutdownA | ShutdownB | DeliverA | DeliverB

  function Swap(n: Net): Net {
    Net(n.b, n.a, n.toB, n.toA)
  }

  function SwapEvent(e: Event): Event {
    match e
    case ShutdownA => ShutdownB
    case ShutdownB => ShutdownA
    case DeliverA => DeliverB
    case DeliverB => DeliverA
  }

  function StepA(n: Net, e: Event): Net
    requires e in {ShutdownA, DeliverA}
  {
    if e == ShutdownA then
      var (a', r) := InitiateShutdown(n.a);
      n.(a := a', toB := n.toB + r.msgs)
    else if n.toA == [] then n
    else
      var (a', r) := Process(n.a, n.toA[0], AllOk);
      n.(a := a', toA := n.toA[1..], toB := n.toB + r.msgs)
  }

  function Step(n: Net, e: Event): Net {
    if e in {ShutdownA, DeliverA} then StepA(n, e) else Swap(StepA(Swap(n), SwapEvent(e)))
  }

  function Run(n: Net, events: seq<Event>): Net
    decreases |events|
  {
    if events == [] then n else Run(Step(n, events[0]), events[1..])
  }

  /** How many of the events did something. */
  function Effective(n: Net, events: seq<Event>): nat
    decreases |events|
  {
    if events == [] then 0
    else (if Step(n, events[0]) == n then 0 else 1) + Effective(Step(n, events[0]), events[1..])
  }

  predicate Initial(n: Net) {
    && n.a.isFunder != n.b.isFunder
    && n.a == NewCloser(n.a.isFunder, n.a.idealFee, n.a.idealFee, n.a.localScript)
    && n.b == NewCloser(n.b.isFunder, n.b.idealFee, n.b.idealFee, n.b.localScript)
    && n.a.idealFee > 0 && n.b.idealFee > 0
    && n.toA == [] && n.toB == []
  }

  function Min(x: int, y: int): int {
    if x < y then x else y
  }

  /** The exact condition on the two ideals under which negotiation ends. */
  predicate Converges(x: int, y: int) {
    Min(x, y) >= 7 || FeeInAcceptableRange(x, y) || FeeInAcceptableRange(y, x)
  }

  /****** The shapes a pair can be in; each is oriented, and `Shape` also allows the mirror image ******/

  predicate NoOffers(c: Closer) {
    c.lastFee == 0
  }

  ghost predicate Base(n: Net) {
    && n.a.isFunder != n.b.isFunder
    && Consistent(n.a) && Consistent(n.b)
    && (n.a.state in {FeeNegotiation, Finished} ==> n.a.remoteScript == n.b.localScript)
    && (n.b.state in {FeeNegotiation, Finished} ==> n.b.remoteScript == n.a.localScript)
  }

  predicate Quiet(n: Net) {
    n.toA == [] && n.toB == []
  }

  predicate Fresh(n: Net) {
    n.a.state == Idle && n.b.state == Idle && Quiet(n)
  }

  predicate OneShut(n: Net) {
    n.a.state == ShutdownInitiated && n.b.state == Idle && n.toA == [] && n.toB == [Shutdown(n.a.localScript)]
  }

  predicate BothShut(n: Net) {
    && n.a.state == ShutdownInitiated && n.b.state == ShutdownInitiated
    && n.toA == [Shutdown(n.b.localScript)] && n.toB == [Shutdown(n.a.localScript)]
  }

  /** `a` has both shutdowns, `b` still waits for the second. */
  predicate Half(n: Net) {
    && n.a.state == FeeNegotiation && n.b.state == ShutdownInitiated
    && n.toA == []
    && (n.a.isFunder ==>
          n.a.lastFee == n.a.idealFee && n.a.idealFee in n.a.priorOffers && n.a.priorOffers.Keys == {n.a.idealFee})
    && (!n.a.isFunder ==> NoOffers(n.a))
    && n.toB == [Shutdown(n.a.localScript)] + (if n.a.isFunder then [Offer(n.a, n.a.idealFee)] else [])
  }

  /** The funder's first offer is in flight. */
  predicate Opening(n: Net) {
    && n.a.state == FeeNegotiation && n.b.state == FeeNegotiation
    && n.a.isFunder && NoOffers(n.b)
    && n.a.lastFee == n.a.idealFee && n.a.priorOffers.Keys == {n.a.idealFee}
    && n.toA == [] && n.toB == [Offer(n.a, n.a.idealFee)]
  }

  /** `low` bids up and `high` bids down, and they have not met. */
  ghost predicate Ordered(low: Closer, high: Closer) {
    && low.idealFee <= low.lastFee < high.lastFee <= high.idealFee
    && (forall f <- low.priorOffers :: low.idealFee <= f <= low.lastFee)
    && (forall f <- high.priorOffers :: high.lastFee <= f <= high.idealFee)
  }

  /** Bounds that keep the two bids apart for ever, or bring them within range. */
  predicate Progress(low: Closer, high: Closer) {
    && (low.idealFee < 10 ==> low.lastFee == low.idealFee)
    && (high.idealFee < 10 ==> high.lastFee == high.idealFee)
    && (high.idealFee >= 10 ==> high.lastFee >= 9)
  }

  /** `b` has just made an offer and `a` is about to answer it. */
  ghost predicate Bargain(n: Net) {
    && n.a.state == FeeNegotiation && n.b.state == FeeNegotiation
    && n.b.lastFee in n.b.priorOffers && n.a.lastFee > 0
    && n.toA == [Offer(n.b, n.b.lastFee)] && n.toB == []
    && if n.a.idealFee < n.b.idealFee then Ordered(n.a, n.b) && Progress(n.a, n.b)
       else Ordered(n.b, n.a) && Progress(n.b, n.a)
  }

  ghost predicate InBounds(n: Net, fee: int) {
    Between(n.a.idealFee, fee, n.b.idealFee)
  }

  /** `b` accepted and its signature is on the way to `a`. */
  ghost predicate Agreed(n: Net) {
    && n.a.state == FeeNegotiation && n.b.state == Finished
    && n.toB == []
    && n.b.closingTx.Some? && n.b.closingTx.value.fee in n.b.priorOffers
    && var fee := n.b.closingTx.value.fee;
       && n.toA == [Offer(n.b, fee)]
       && fee in n.a.priorOffers
       && InBounds(n, fee)
  }

  /** Both have finished; `b` may still get an echo. */
  ghost predicate Closed(n: Net) {
    && n.a.state == Finished && n.b.state == Finished
    && n.a.closingTx == n.b.closingTx && n.a.closingTx.Some?
    && InBounds(n, n.a.closingTx.value.fee)
    && n.toA == []
    && (n.toB == [] || (|n.toB| == 1 && n.toB[0].ClosingSigned?))
  }

  ghost predicate OrientedShape(n: Net) {
    Fresh(n) || OneShut(n) || BothShut(n) || Half(n) || Opening(n) || Bargain(n) || Agreed(n) || Closed(n)
  }

  ghost predicate Shape(n: Net) {
    && Base(n)
    && (OrientedShape(n) || OrientedShape(Swap(n)))
  }

  /****** A strictly decreasing measure ******/

  function Gap(n: Net): nat {
    Abs(n.a.lastFee - n.b.lastFee)
  }

  /** `c` is to answer `offer`: 0 when it accepts, otherwise a bigger number for the lower bidder. */
  function Turn(c: Closer, offer: int): nat {
    if FeeInAcceptableRange(c.lastFee, offer) then 0 else if c.lastFee < offer then 2 else 1
  }

  function Measure(n: Net): nat {
    var top := 3 * Abs(n.a.idealFee - n.b.idealFee) + 10;
    if n.a.state == Finished && n.b.state == Finished then |n.toA| + |n.toB|
    else if n.a.state == Finished || n.b.state == Finished then 2
    else if n.a.state == FeeNegotiation && n.b.state == FeeNegotiation then
      if n.a.lastFee == 0 || n.b.lastFee == 0 then top + 1
      else 3 + 3 * Gap(n) + (if n.toA != [] then Turn(n.a, n.b.lastFee) else Turn(n.b, n.a.lastFee))
    else if n.a.state == FeeNegotiation || n.b.state == FeeNegotiation then top + 2
    else top + 3 + (if n.a.state == Idle then 1 else 0) + (if n.b.state == Idle then 1 else 0)
  }

  lemma MeasureSwap(n: Net)
    requires Shape(n)
    ensures Measure(Swap(n)) == Measure(n)
  {
  }

  /****** One step ******/

  /** What a step at side `a` does: the shape stays, and a step with an effect makes progress. */
  ghost predicate GoodStep(n: Net, n': Net) {
    && Shape(n')
    && n'.a.idealFee == n.a.idealFee && n'.b.idealFee == n.b.idealFee
    && (n' != n && Converges(n.a.idealFee, n.b.idealFee) ==> Measure(n') < Measure(n))
    && (!Converges(n.a.idealFee, n.b.idealFee) && Unfinished(n) ==> Unfinished(n'))
  }

  predicate Unfinished(n: Net) {
    n.a.state != Finished && n.b.state != Finished
  }

  lemma StepShutdown(n: Net)
    requires Shape(n)
    ensures GoodStep(n, StepA(n, ShutdownA))
  {
    assert n.toB + [] == n.toB;
  }

  lemma DeliverOpeningPhase(n: Net)
    requires Base(n) && n.toA != []
    requires OneShut(Swap(n)) || BothShut(n) || BothShut(Swap(n)) || Half(Swap(n))
    ensures GoodStep(n, StepA(n, DeliverA))
  {
    StepKeepsConsistent(n.a, n.toA[0], AllOk);
    var n' := StepA(n, DeliverA);
    if OneShut(Swap(n)) {
      assert Half(n');
    } else if Half(Swap(n)) {
      if n.a.isFunder {
        assert Opening(n');
      } else {
        assert Opening(Swap(n'));
      }
    } else {
      assert Half(n');
    }
  }

  lemma DeliverFirstOffer(n: Net)
    requires Base(n) && Opening(Swap(n))
    ensures GoodStep(n, StepA(n, DeliverA))
  {
    StepKeepsConsistent(n.a, n.toA[0], AllOk);
    var n' := StepA(n, DeliverA);
    if n.a.idealFee == n.b.idealFee {
      assert Agreed(Swap(n'));
    } else {
      assert Bargain(Swap(n'));
    }
  }

  /** Arithmetic of one counter-offer from `low` to `high`'s bid, or the reverse. */
  lemma BidUp(ideal: int, low: int, high: int)
    requires 0 < ideal <= low < high && !FeeInAcceptableRange(low, high)
    ensures low <= RachetFee(low, true) < high
    ensures low >= 10 ==> low < RachetFee(low, true)
    ensures low < 10 ==> RachetFee(low, true) == low
  {
  }

  lemma BidDown(low: int, high: int)
    requires 0 < low < high && !FeeInAcceptableRange(high, low)
    ensures low < RachetFee(high, false) <= high
    ensures high >= 10 ==> 9 <= RachetFee(high, false) < high
    ensures high < 10 ==> RachetFee(high, false) == high
  {
  }

  lemma BargainAccept(n: Net)
    requires Base(n) && Bargain(n)
    requires FeeInAcceptableRange(n.a.lastFee, n.b.lastFee)
    ensures var n' := StepA(n, DeliverA); Base(n') && Agreed(Swap(n'))
  {
    StepKeepsConsistent(n.a, n.toA[0], AllOk);
    assert n.b.lastFee !in n.a.priorOffers;
  }

  lemma BargainRachet(n: Net)
    requires Base(n) && Bargain(n)
    requires !FeeInAcceptableRange(n.a.lastFee, n.b.lastFee)
    ensures var n' := StepA(n, DeliverA);
            && Base(n') && Bargain(Swap(n'))
            && n'.b == n.b
            && n'.a.lastFee == RachetFee(n.a.lastFee, n.b.lastFee > n.a.lastFee)
  {
    StepKeepsConsistent(n.a, n.toA[0], AllOk);
    assert n.b.lastFee !in n.a.priorOffers;
    assert n.b.lastFee != n.a.idealFee;
    if n.a.idealFee < n.b.idealFee {
      BidUp(n.a.idealFee, n.a.lastFee, n.b.lastFee);
    } else {
      BidDown(n.b.lastFee, n.a.lastFee);
    }
  }

  /** When the ideals converge, a refused offer is followed by a smaller gap or by a more willing turn. */
  lemma RachetProgress(n: Net)
    requires Base(n) && Bargain(n) && Converges(n.a.idealFee, n.b.idealFee)
    requires !FeeInAcceptableRange(n.a.lastFee, n.b.lastFee)
    ensures Measure(StepA(n, DeliverA)) < Measure(n)
  {
    BargainRachet(n);
    if n.a.idealFee < n.b.idealFee {
      BidUp(n.a.idealFee, n.a.lastFee, n.b.lastFee);
    } else {
      BidDown(n.b.lastFee, n.a.lastFee);
    }
  }

  /** When they do not, no offer is ever in range. */
  lemma NeverInRange(n: Net)
    requires Base(n) && Bargain(n) && !Converges(n.a.idealFee, n.b.idealFee)
    ensures !FeeInAcceptableRange(n.a.lastFee, n.b.lastFee)
  {
  }

  lemma DeliverBargain(n: Net)
    requires Base(n) && Bargain(n)
    ensures GoodStep(n, StepA(n, DeliverA))
  {
    if FeeInAcceptableRange(n.a.lastFee, n.b.lastFee) {
      BargainAccept(n);
      if !Converges(n.a.idealFee, n.b.idealFee) {
        NeverInRange(n);
      }
    } else {
      BargainRachet(n);
      if Converges(n.a.idealFee, n.b.idealFee) {
        RachetProgress(n);
      }
    }
  }

  lemma DeliverAcceptance(n: Net)
    requires Base(n) && (Agreed(n) || Closed(n) || Closed(Swap(n))) && n.toA != []
    ensures GoodStep(n, StepA(n, DeliverA))
  {
    StepKeepsConsistent(n.a, n.toA[0], AllOk);
    var n' := StepA(n, DeliverA);
    if Agreed(n) {
      assert Closed(n');
    }
  }

  lemma StepAGood(n: Net, e: Event)
    requires Shape(n) && e in {ShutdownA, DeliverA}
    ensures GoodStep(n, StepA(n, e))
  {
    if e == ShutdownA {
      StepShutdown(n);
    } else if n.toA != [] {
      if Bargain(n) {
        DeliverBargain(n);
      } else if Opening(Swap(n)) {
        DeliverFirstOffer(n);
      } else if Agreed(n) || Closed(n) || Closed(Swap(n)) {
        DeliverAcceptance(n);
      } else {
        DeliverOpeningPhase(n);
      }
    }
  }

  lemma StepGood(n: Net, e: Event)
    requires Shape(n)
    ensures GoodStep(n, Step(n, e))
  {
    if e in {ShutdownA, DeliverA} {
      StepAGood(n, e);
    } else {
      StepAGood(Swap(n), SwapEvent(e));
      MeasureSwap(n);
      MeasureSwap(Step(n, e));
    }
  }

  /****** Whole runs ******/

  lemma {:induction false} RunGood(n: Net, events: seq<Event>)
    requires Shape(n)
    ensures var n' := Run(n, events);
            && Shape(n') && n'.a.idealFee == n.a.idealFee && n'.b.idealFee == n.b.idealFee
            && (Converges(n.a.idealFee, n.b.idealFee) ==> Effective(n, events) + Measure(n') <= Measure(n))
            && (!Converges(n.a.idealFee, n.b.idealFee) && Unfinished(n) ==> Unfinished(n'))
    decreases |events|
  {
    if events != [] {
      StepGood(n, events[0]);
      RunGood(Step(n, events[0]), events[1..]);
    }
  }

  lemma InitialShape(n: Net)
    requires Initial(n)
    ensures Shape(n) && Unfinished(n)
  {
    assert Fresh(n);
  }

  /** Somebody asked to close. */
  predicate Started(n: Net) {
    n.a.state != Idle || n.b.state != Idle
  }

  /** `c` closed on a fee between the ideals for which `other` has already given its signature. */
  ghost predicate SettledBy(n: Net, c: Closer, other: Closer) {
    && c.closingTx.Some?
    && InBounds(n, c.closingTx.value.fee)
    && c.closingTx.value.fee in other.priorOffers
    && other.priorOffers[c.closingTx.value.fee] == Sig(other.isFunder, c.closingTx.value)
  }

  /**
    Agreement: whatever the schedule, two finished closers hold the same closing
    transaction, its fee lies between the two ideals, and a single finished closer's
    fee is one the other has already signed.
  */
  lemma ClosersAgree(n: Net, events: seq<Event>)
    requires Initial(n)
    ensures var n' := Run(n, events);
            && (n'.a.state == Finished && n'.b.state == Finished ==> n'.a.closingTx == n'.b.closingTx)
            && (n'.a.state == Finished ==> SettledBy(n', n'.a, n'.b))
            && (n'.b.state == Finished ==> SettledBy(n', n'.b, n'.a))
            && n'.a.idealFee == n.a.idealFee && n'.b.idealFee == n.b.idealFee
  {
    InitialShape(n);
    RunGood(n, events);
  }

  /** Both ideals are clamped to the commitment fee, so the agreed fee never exceeds it. */
  lemma AgreedFeeWithinCommitFee(feeA: int, feeB: int, commitFee: int, n: Net, events: seq<Event>)
    requires Initial(n)
    requires n.a.idealFee == ClampIdealFee(feeA, commitFee) && n.b.idealFee == ClampIdealFee(feeB, commitFee)
    ensures var n' := Run(n, events);
            n'.a.state == Finished ==> n'.a.closingTx.Some? && 0 < n'.a.closingTx.value.fee <= commitFee
  {
    ClosersAgree(n, events);
  }

  /**
    Termination: when the ideals converge, at most `Measure(n)` events of any schedule have
    an effect, and a started pair with nothing left in flight has closed on both sides.
  */
  lemma ClosersTerminate(n: Net, events: seq<Event>)
    requires Initial(n) && Converges(n.a.idealFee, n.b.idealFee)
    ensures Effective(n, events) <= Measure(n)
    ensures var n' := Run(n, events);
            Started(n') && Quiet(n') ==> BothFinished(n')
  {
    InitialShape(n);
    RunGood(n, events);
  }

  /** Otherwise no schedule ever finishes on either side, and there is always a message to deliver. */
  lemma ClosersDiverge(n: Net, events: seq<Event>)
    requires Initial(n) && !Converges(n.a.idealFee, n.b.idealFee)
    ensures var n' := Run(n, events);
            && n'.a.state != Finished && n'.b.state != Finished
            && (Started(n') ==> !Quiet(n'))
  {
    InitialShape(n);
    RunGood(n, events);
  }

  /** The delivery schedule that gets a started pair home, as long as messages remain. */
  ghost function Drain(n: Net, fuel: nat): seq<Event>
    decreases fuel
  {
    if fuel == 0 || Quiet(n) then []
    else
      var e := if n.toA != [] then DeliverA else DeliverB;
      [e] + Drain(Step(n, e), fuel - 1)
  }

  lemma DeliveryHasEffect(n: Net, e: Event)
    requires (e == DeliverA && n.toA != []) || (e == DeliverB && n.toB != [])
    ensures Step(n, e) != n
  {
    if e == DeliverA {
      assert |Step(n, e).toA| < |n.toA|;
    } else {
      assert |Step(n, e).toB| < |n.toB|;
    }
  }

  lemma {:induction false} DrainFinishes(n: Net, fuel: nat)
    requires Shape(n) && Started(n) && Converges(n.a.idealFee, n.b.idealFee) && Measure(n) <= fuel
    ensures BothFinished(Run(n, Drain(n, fuel)))
    decreases fuel
  {
    if !Quiet(n) {
      var e := if n.toA != [] then DeliverA else DeliverB;
      DeliveryHasEffect(n, e);
      StepGood(n, e);
      assert Drain(n, fuel) == [e] + Drain(Step(n, e), fuel - 1);
      assert Run(n, Drain(n, fuel)) == Run(Step(n, e), Drain(Step(n, e), fuel - 1));
      DrainFinishes(Step(n, e), fuel - 1);
    }
  }

  predicate BothFinished(n: Net) {
    n.a.state == Finished && n.b.state == Finished
  }

  predicate ClosesUnder(n: Net, events: seq<Event>) {
    BothFinished(Run(n, events))
  }

  /** A pair in which somebody asked to close can finish if and only if its ideals converge. */
  lemma ClosersFinishIff(n: Net)
    requires Initial(n)
    ensures (exists events :: ClosesUnder(n, events))
            <==> Converges(n.a.idealFee, n.b.idealFee)
  {
    if Converges(n.a.idealFee, n.b.idealFee) {
      InitialShape(n);
      StepGood(n, ShutdownA);
      var n1 := Step(n, ShutdownA);
      DrainFinishes(n1, Measure(n1));
      var events := [ShutdownA] + Drain(n1, Measure(n1));
      assert events[1..] == Drain(n1, Measure(n1));
      assert ClosesUnder(n, events);
    } else {
      forall events
        ensures !ClosesUnder(n, events)
      {
        ClosersDiverge(n, events);
      }
    }
  }

  /** Concrete pair: ideals of 6 and 10 sat, both positive, haggle for ever. */
  lemma SmallFeesHaggleForever(events: seq<Event>)
    ensures var n := Net(NewCloser(true, 6, 6, "a"), NewCloser(false, 10, 10, "b"), [], []);
            Run(n, events).a.state != Finished && Run(n, events).b.state != Finished
  {
    ClosersDiverge(Net(NewCloser(true, 6, 6, "a"), NewCloser(false, 10, 10, "b"), [], []), events);
  }
}
