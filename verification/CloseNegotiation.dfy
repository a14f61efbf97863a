/**
  The cooperative close negotiator: fee arithmetic, the closer's state machine as a
  value, the object that updates itself in place, and what one closer promises
  against an arbitrary peer.
*/
module CloseNegotiation {
  import opened Chain

  /** Delivery scripts are opaque here. */
  type Script = string

  /** Go's integer division truncates toward zero. */
  function TruncDiv(a: int, b: int): int
    requires b > 0
  {
    if a >= 0 then a / b else -((-a) / b)
  }

  predicate FeeInAcceptableRange(local: int, remote: int) {
    if local < remote then
      remote <= local + TruncDiv(local * 3, 10)
    else
      remote >= local - TruncDiv(local * 3, 10)
  }

  function RachetFee(fee: int, up: bool): int {
    if up then fee + TruncDiv(fee, 10) else fee - TruncDiv(fee, 10)
  }

  function CalcCompromiseFee(ideal: int, lastSent: int, remote: int): int {
    if ideal == remote || lastSent == 0 then
      ideal
    else if remote == lastSent then
      lastSent
    else if FeeInAcceptableRange(lastSent, remote) then
      remote
    else
      RachetFee(lastSent, remote > lastSent)
  }

  /** The starting fee, clamped to the fee of the current commitment transaction. */
  function ClampIdealFee(calculated: int, commitFee: int): (fee: int)
    ensures fee <= calculated && fee <= commitFee && (fee == calculated || fee == commitFee)
  {
    if calculated > commitFee then commitFee else calculated
  }

  /** The closing transaction is fixed by its fee and by who is paid to which script. */
  datatype CloseTx = CloseTx(fee: int, funderScript: Script, fundeeScript: Script)

  datatype Sig = Sig(byFunder: bool, tx: CloseTx)

  datatype Msg =
    | Shutdown(address: Script)
    | ClosingSigned(fee: int, sig: Sig)
    | Unrelated

  datatype State = Idle | ShutdownInitiated | FeeNegotiation | Finished

  /** What the wallet and the network answer during one call. */
  datatype Env = Env(signOk: bool, parseOk: bool, completeOk: bool, broadcastOk: bool)

  const AllOk := Env(true, true, true, true)

  datatype Closer = Closer(
    state: State,
    isFunder: bool,
    idealFee: int,
    lastFee: int,
    priorOffers: map<int, Sig>,
    localScript: Script,
    remoteScript: Script,
    closingTx: Option<CloseTx>)

  function NewCloser(isFunder: bool, calculatedFee: int, commitFee: int, localScript: Script): Closer {
    Closer(Idle, isFunder, ClampIdealFee(calculatedFee, commitFee), 0, map[], localScript, "", None)
  }

  function TxAt(c: Closer, fee: int): CloseTx {
    if c.isFunder then CloseTx(fee, c.localScript, c.remoteScript)
    else CloseTx(fee, c.remoteScript, c.localScript)
  }

  /** Our signature for the closing transaction that pays `fee`. */
  function SigAt(c: Closer, fee: int): Sig {
    Sig(c.isFunder, TxAt(c, fee))
  }

  predicate RemoteSigValid(c: Closer, fee: int, sig: Sig) {
    sig == Sig(!c.isFunder, TxAt(c, fee))
  }

  datatype Reply = Reply(msgs: seq<Msg>, done: bool, failed: bool)

  const Failure := Reply([], false, true)

  /** The effect of signing an offer: `ok` is false when either half of signing fails. */
  function Propose(c: Closer, fee: int, env: Env): (Closer, bool) {
    if !env.signOk then (c, false)
    else if !env.parseOk then (c.(lastFee := fee), false)
    else (c.(lastFee := fee, priorOffers := c.priorOffers[fee := SigAt(c, fee)]), true)
  }

  function Offer(c: Closer, fee: int): Msg
    requires fee in c.priorOffers
  {
    ClosingSigned(fee, c.priorOffers[fee])
  }

  function InitiateShutdown(c: Closer): (Closer, Reply) {
    if c.state != Idle then (c, Failure)
    else (c.(state := ShutdownInitiated), Reply([Shutdown(c.localScript)], false, false))
  }

  /** Enter negotiation; only the channel's funder speaks first. */
  function EnterNegotiation(c: Closer, address: Script, sent: seq<Msg>, env: Env): (Closer, Reply) {
    var c1 := c.(remoteScript := address, state := FeeNegotiation);
    if !c1.isFunder then (c1, Reply(sent, false, false))
    else
      var (c2, ok) := Propose(c1, c1.idealFee, env);
      if ok then (c2, Reply(sent + [Offer(c2, c2.idealFee)], false, false)) else (c2, Failure)
  }

  /** Accept a fee that we have already signed. */
  function Accept(c: Closer, fee: int, sig: Sig, env: Env): (Closer, Reply)
    requires fee in c.priorOffers
  {
    if !(env.completeOk && RemoteSigValid(c, fee, sig)) then (c, Failure)
    else
      var c1 := c.(closingTx := Some(TxAt(c, fee)));
      if !env.broadcastOk then (c1, Failure)
      else (c1.(state := Finished), Reply([Offer(c, fee)], true, false))
  }

  function Negotiate(c: Closer, fee: int, sig: Sig, env: Env): (Closer, Reply) {
    if fee in c.priorOffers then Accept(c, fee, sig, env)
    else
      var mine := CalcCompromiseFee(c.idealFee, c.lastFee, fee);
      var (c1, ok) := Propose(c, mine, env);
      if !ok then (c1, Failure)
      else if mine != fee then (c1, Reply([Offer(c1, mine)], false, false))
      else Accept(c1, fee, sig, env)
  }

  function Process(c: Closer, msg: Msg, env: Env): (Closer, Reply) {
    match c.state
    case Idle =>
      if msg.Shutdown? then EnterNegotiation(c, msg.address, [Shutdown(c.localScript)], env)
      else (c, Failure)
    case ShutdownInitiated =>
      if msg.Shutdown? then EnterNegotiation(c, msg.address, [], env) else (c, Failure)
    case FeeNegotiation =>
      if msg.ClosingSigned? then Negotiate(c, msg.fee, msg.sig, env) else (c, Failure)
    case Finished =>
      if msg.ClosingSigned? then (c, Reply([], true, false)) else (c, Failure)
  }

  /** The closer as an object whose methods change its fields step by step. */
  class ChannelCloser {
    var state: State
    const isFunder: bool
    const idealFee: int
    const localScript: Script
    var lastFee: int
    var priorOffers: map<int, Sig>
    var remoteScript: Script
    var closingTx: Option<CloseTx>

    function View(): Closer
      reads this
    {
      Closer(state, isFunder, idealFee, lastFee, priorOffers, localScript, remoteScript, closingTx)
    }

    constructor (isFunder: bool, calculatedFee: int, commitFee: int, localScript: Script)
      ensures View() == NewCloser(isFunder, calculatedFee, commitFee, localScript)
      ensures idealFee <= commitFee
    {
      var fee := calculatedFee;
      if fee > commitFee {
        fee := commitFee;
      }
      this.isFunder, this.idealFee, this.localScript := isFunder, fee, localScript;
      state, lastFee, priorOffers, remoteScript, closingTx := Idle, 0, map[], "", None;
    }

    method ShutdownChan() returns (r: Reply)
      modifies `state
      ensures (View(), r) == InitiateShutdown(old(View()))
      ensures r == if old(state) == Idle then Reply([Shutdown(localScript)], false, false) else Reply([], false, true)
      ensures state == if old(state) == Idle then ShutdownInitiated else old(state)
    {
      if state != Idle {
        return Failure;
      }
      state := ShutdownInitiated;
      r := Reply([Shutdown(localScript)], false, false);
    }

    method ProposeCloseSigned(fee: int, env: Env) returns (ok: bool)
      modifies `lastFee, `priorOffers
      ensures (View(), ok) == Propose(old(View()), fee, env)
      ensures ok <==> env.signOk && env.parseOk
      ensures lastFee == if env.signOk then fee else old(lastFee)
      ensures !ok ==> priorOffers == old(priorOffers)
      ensures ok ==> fee in priorOffers && priorOffers[fee].byFunder == isFunder && priorOffers[fee].tx.fee == fee
      ensures ok ==> PaysBothSides(View(), priorOffers[fee].tx)
      ensures forall f <- old(priorOffers) | f != fee :: f in priorOffers && priorOffers[f] == old(priorOffers)[f]
    {
      if !env.signOk {
        return false;
      }
      lastFee := fee;
      if !env.parseOk {
        return false;
      }
      priorOffers := priorOffers[fee := SigAt(View(), fee)];
      ok := true;
    }

    method ProcessCloseMsg(msg: Msg, env: Env) returns (r: Reply)
      modifies this
      ensures (View(), r) == Process(old(View()), msg, env)
      ensures old(state) == FeeNegotiation && r.done ==> FinishedBy(old(View()), View(), msg, env)
      ensures old(state) == FeeNegotiation && r.failed ==> state == FeeNegotiation
    {
      if state == FeeNegotiation {
        NegotiationEndsIff(View(), msg, env);
      }
      match state
      case Idle =>
        r := StartNegotiation(msg, [Shutdown(localScript)], env);
      case ShutdownInitiated =>
        r := StartNegotiation(msg, [], env);
      case FeeNegotiation =>
        r := NegotiateFee(msg, env);
      case Finished =>
        r := if msg.ClosingSigned? then Reply([], true, false) else Failure;
    }

    method StartNegotiation(msg: Msg, sent: seq<Msg>, env: Env) returns (r: Reply)
      modifies this
      ensures msg.Shutdown? ==> (View(), r) == EnterNegotiation(old(View()), msg.address, sent, env)
      ensures !msg.Shutdown? ==> (View(), r) == (old(View()), Failure)
    {
      if !msg.Shutdown? {
        return Failure;
      }
      remoteScript := msg.address;
      state := FeeNegotiation;
      if isFunder {
        var ok := ProposeCloseSigned(idealFee, env);
        if !ok {
          return Failure;
        }
        return Reply(sent + [Offer(View(), idealFee)], false, false);
      }
      r := Reply(sent, false, false);
    }

    method NegotiateFee(msg: Msg, env: Env) returns (r: Reply)
      modifies this
      ensures msg.ClosingSigned? ==> (View(), r) == Negotiate(old(View()), msg.fee, msg.sig, env)
      ensures !msg.ClosingSigned? ==> (View(), r) == (old(View()), Failure)
      ensures r.done ==> FinishedBy(old(View()), View(), msg, env)
      ensures r.failed ==> state == old(state)
    {
      if !msg.ClosingSigned? {
        return Failure;
      }
      if msg.fee !in priorOffers {
        var mine := CalcCompromiseFee(idealFee, lastFee, msg.fee);
        var ok := ProposeCloseSigned(mine, env);
        if !ok {
          return Failure;
        }
        if mine != msg.fee {
          return Reply([Offer(View(), mine)], false, false);
        }
      }
      if !(env.completeOk && RemoteSigValid(View(), msg.fee, msg.sig)) {
        return Failure;
      }
      closingTx := Some(TxAt(View(), msg.fee));
      if !env.broadcastOk {
        return Failure;
      }
      state := Finished;
      r := Reply([Offer(View(), msg.fee)], true, false);
    }
  }

  /****** One closer against an arbitrary peer ******/

  function Abs(x: int): nat {
    if x < 0 then -x else x
  }

  predicate Between(lo: int, x: int, hi: int) {
    lo <= x <= hi || hi <= x <= lo
  }

  predicate StrictlyBetween(lo: int, x: int, hi: int) {
    lo < x < hi || hi < x < lo
  }

  /** Kept by every call that returns no error. */
  ghost predicate Consistent(c: Closer) {
    && c.idealFee > 0
    && (forall fee <- c.priorOffers :: fee > 0 && c.priorOffers[fee] == SigAt(c, fee))
    && (c.state in {Idle, ShutdownInitiated} ==> c.lastFee == 0)
    && (if c.lastFee == 0 then c.priorOffers == map[]
        else c.lastFee > 0 && c.lastFee in c.priorOffers && c.idealFee in c.priorOffers)
    && (c.state == Finished <==> c.closingTx.Some?)
    && (c.closingTx.Some? ==>
          c.closingTx.value.fee in c.priorOffers && c.closingTx.value == TxAt(c, c.closingTx.value.fee))
  }

  /**
    The step function alone: a peer's fee within 30% of the last own offer is taken over, any other
    one is answered by a step of a tenth, rounded down, towards it.
  */
  lemma CompromiseStep(ideal: int, last: int, remote: int)
    requires last > 0 && ideal != remote && remote != last
    ensures var p := CalcCompromiseFee(ideal, last, remote);
            && p > 0
            && Between(last, p, remote)
            && 10 * Abs(p - last) <= 3 * last
            && (p == remote <==> 10 * Abs(remote - last) <= 3 * last)
            && (p != remote ==> last - 10 < 10 * Abs(p - last) <= last)
            && (p != remote && last >= 10 ==> StrictlyBetween(last, p, remote))
            && (p != remote && last < 10 ==> p == last)
  {
  }

  /** A fee we sign in answer to `msg`, if any. */
  function NewOffer(c: Closer, msg: Msg): Option<int> {
    match c.state
    case Idle => if msg.Shutdown? && c.isFunder then Some(c.idealFee) else None
    case ShutdownInitiated => if msg.Shutdown? && c.isFunder then Some(c.idealFee) else None
    case FeeNegotiation =>
      if msg.ClosingSigned? && msg.fee !in c.priorOffers
      then Some(CalcCompromiseFee(c.idealFee, c.lastFee, msg.fee)) else None
    case Finished => None
  }

  /** One round as seen from outside: our last offer before it, the peer's fee, our answer. */
  datatype Round = Round(last: int, remote: int, offer: int, done: bool)

  ghost predicate LawfulRound(r: Round) {
    && Between(r.last, r.offer, r.remote)
    && 10 * Abs(r.offer - r.last) <= 3 * r.last
    && (r.done ==> r.offer == r.remote)
    && (!r.done && r.last >= 10 ==> StrictlyBetween(r.last, r.offer, r.remote))
  }

  lemma StepKeepsConsistent(c: Closer, msg: Msg, env: Env)
    requires Consistent(c)
    ensures var (c', r) := Process(c, msg, env); !r.failed ==> Consistent(c')
  {
    if c.state == FeeNegotiation && msg.ClosingSigned? && msg.fee !in c.priorOffers && c.lastFee != 0 {
      if msg.fee != c.lastFee {
        CompromiseStep(c.idealFee, c.lastFee, msg.fee);
      }
    }
  }

  lemma StepOffers(c: Closer, msg: Msg, env: Env)
    requires Consistent(c)
    requires !Process(c, msg, env).1.failed
    ensures var (c', r) := Process(c, msg, env);
            match NewOffer(c, msg)
            case None => c'.lastFee == c.lastFee && c'.priorOffers == c.priorOffers
            case Some(p) =>
              && c'.lastFee == p && p in c'.priorOffers && Offer(c', p) in r.msgs
              && (c.lastFee == 0 ==> p == c.idealFee)
              && (c.lastFee > 0 ==> msg.ClosingSigned? && LawfulRound(Round(c.lastFee, msg.fee, p, r.done)))
  {
    if c.state == FeeNegotiation && msg.ClosingSigned? && msg.fee !in c.priorOffers && c.lastFee != 0 {
      assert msg.fee != c.lastFee && msg.fee != c.idealFee;
      CompromiseStep(c.idealFee, c.lastFee, msg.fee);
    }
  }

  /****** How negotiation starts and ends ******/

  /** `tx` pays each side to its own delivery script. */
  predicate PaysBothSides(c: Closer, tx: CloseTx) {
    if c.isFunder then tx.funderScript == c.localScript && tx.fundeeScript == c.remoteScript
    else tx.fundeeScript == c.localScript && tx.funderScript == c.remoteScript
  }

  /** The call ended the negotiation: the peer signed exactly the transaction that was broadcast, for its own fee. */
  ghost predicate FinishedBy(c: Closer, c': Closer, msg: Msg, env: Env) {
    && msg.ClosingSigned? && env.completeOk && env.broadcastOk
    && c'.state == Finished && c'.closingTx.Some?
    && var tx := c'.closingTx.value;
       && tx.fee == msg.fee && PaysBothSides(c, tx)
       && msg.sig == Sig(!c.isFunder, tx)
       && msg.fee in c'.priorOffers
  }

  /** Our side will agree to the fee: it has offered it before, or its next offer is that fee. */
  predicate WouldAgree(c: Closer, fee: int, env: Env) {
    fee in c.priorOffers || (env.signOk && env.parseOk && CalcCompromiseFee(c.idealFee, c.lastFee, fee) == fee)
  }

  /**
    While fees are negotiated: the call is done if and only if the message carries the peer's
    signature for the transaction at a fee that our side agrees to and both completion and broadcast
    succeed; a failed call keeps the state, and any other one answers with one offer and goes on.
  */
  lemma NegotiationEndsIff(c: Closer, msg: Msg, env: Env)
    requires c.state == FeeNegotiation
    ensures var (c', r) := Process(c, msg, env);
            && (r.done ==> !r.failed && FinishedBy(c, c', msg, env) && |r.msgs| == 1)
            && (r.done ==> r.msgs[0] == ClosingSigned(msg.fee, c'.priorOffers[msg.fee]))
            && (r.failed ==> c'.state == FeeNegotiation && r.msgs == [])
            && (!r.done && !r.failed ==> c'.state == FeeNegotiation && |r.msgs| == 1 && r.msgs[0].ClosingSigned?)
            && (r.done <==>
                  && msg.ClosingSigned? && WouldAgree(c, msg.fee, env) && env.completeOk && env.broadcastOk
                  && msg.sig.byFunder == !c.isFunder && msg.sig.tx.fee == msg.fee && PaysBothSides(c, msg.sig.tx))
  {
  }

  /**
    Before: only a Shutdown starts negotiation. Its address becomes the peer's script, an idle closer
    answers with its own Shutdown, and the funder, and only the funder, adds an offer at its ideal fee.
  */
  lemma NegotiationStarts(c: Closer, msg: Msg, env: Env)
    requires c.state == Idle || c.state == ShutdownInitiated
    ensures var (c', r) := Process(c, msg, env);
            && !r.done && c'.localScript == c.localScript && c'.closingTx == c.closingTx
            && (!msg.Shutdown? ==> r.failed && c' == c)
            && (msg.Shutdown? ==> c'.state == FeeNegotiation && c'.remoteScript == msg.address)
            && (msg.Shutdown? ==> (r.failed <==> c.isFunder && !(env.signOk && env.parseOk)))
            && (!r.failed ==>
                  var own := if c.state == Idle then 1 else 0;
                  && |r.msgs| == own + (if c.isFunder then 1 else 0)
                  && (own == 1 ==> r.msgs[0] == Shutdown(c.localScript))
                  && (c.isFunder ==> r.msgs[own].ClosingSigned? && r.msgs[own].fee == c.idealFee))
  {
  }

  /** After the end: the peer's echo is taken without an answer, and nothing changes any more. */
  lemma NothingAfterTheEnd(c: Closer, msg: Msg, env: Env)
    requires c.state == Finished
    ensures var (c', r) := Process(c, msg, env);
            c' == c && r.msgs == [] && r.failed == !msg.ClosingSigned? && r.done == msg.ClosingSigned?
  {
  }

  /** All the counter-offers of a run that ends at the first error. */
  ghost function Rounds(c: Closer, inputs: seq<(Msg, Env)>): seq<Round>
    decreases |inputs|
  {
    if inputs == [] then [] else
    var (c', r) := Process(c, inputs[0].0, inputs[0].1);
    if r.failed then [] else
    match NewOffer(c, inputs[0].0)
    case None => Rounds(c', inputs[1..])
    case Some(p) =>
      [Round(c.lastFee, if inputs[0].0.ClosingSigned? then inputs[0].0.fee else 0, p, r.done)] + Rounds(c', inputs[1..])
  }

  /** The closer a run ends in, and whether it got there without an error. */
  ghost function RunCloser(c: Closer, inputs: seq<(Msg, Env)>): (Closer, bool)
    decreases |inputs|
  {
    if inputs == [] then (c, true) else
    var (c', r) := Process(c, inputs[0].0, inputs[0].1);
    if r.failed then (c', false) else RunCloser(c', inputs[1..])
  }

  lemma {:induction false} RoundsFrom(c: Closer, inputs: seq<(Msg, Env)>)
    requires Consistent(c)
    ensures var rs := Rounds(c, inputs);
            && (forall i :: 0 <= i < |rs| ==> (i > 0 || c.lastFee > 0 ==> LawfulRound(rs[i])))
            && (forall i :: 0 < i < |rs| ==> rs[i].last == rs[i - 1].offer)
            && (|rs| > 0 ==> rs[0].last == c.lastFee && (c.lastFee == 0 ==> rs[0].offer == c.idealFee))
    ensures var (c', ok) := RunCloser(c, inputs); ok ==>
              Consistent(c') && c'.idealFee == c.idealFee && c'.isFunder == c.isFunder
    decreases |inputs|
  {
    if inputs != [] {
      var (c', r) := Process(c, inputs[0].0, inputs[0].1);
      if !r.failed {
        StepKeepsConsistent(c, inputs[0].0, inputs[0].1);
        StepOffers(c, inputs[0].0, inputs[0].1);
        RoundsFrom(c', inputs[1..]);
      }
    }
  }

  /** Some call got the peer's signature of exactly `tx`, and its broadcast succeeded. */
  ghost predicate SignedAndSent(inputs: seq<(Msg, Env)>, byFunder: bool, tx: CloseTx) {
    exists i :: 0 <= i < |inputs| && inputs[i].0 == ClosingSigned(tx.fee, Sig(byFunder, tx)) && inputs[i].1.broadcastOk
  }

  ghost predicate ShutdownSeen(inputs: seq<(Msg, Env)>, address: Script) {
    exists i :: 0 <= i < |inputs| && inputs[i].0 == Shutdown(address)
  }

  lemma SeenLater(inputs: seq<(Msg, Env)>)
    requires inputs != []
    ensures forall b, tx :: SignedAndSent(inputs[1..], b, tx) ==> SignedAndSent(inputs, b, tx)
    ensures forall address :: ShutdownSeen(inputs[1..], address) ==> ShutdownSeen(inputs, address)
  {
    forall b, tx | SignedAndSent(inputs[1..], b, tx)
      ensures SignedAndSent(inputs, b, tx)
    {
      var rest := inputs[1..];
      var i :| 0 <= i < |rest| && rest[i].0 == ClosingSigned(tx.fee, Sig(b, tx)) && rest[i].1.broadcastOk;
      assert inputs[i + 1] == rest[i];
    }
    forall address | ShutdownSeen(inputs[1..], address)
      ensures ShutdownSeen(inputs, address)
    {
      var i :| 0 <= i < |inputs[1..]| && inputs[1..][i].0 == Shutdown(address);
      assert inputs[i + 1] == inputs[1..][i];
    }
  }

  /** What a finished closer owes to the messages it got. */
  ghost predicate EndedWell(c: Closer, c': Closer, inputs: seq<(Msg, Env)>) {
    && c'.isFunder == c.isFunder && c'.localScript == c.localScript
    && (c.state != Finished && c'.state == Finished ==>
          && c'.closingTx.Some? && PaysBothSides(c', c'.closingTx.value)
          && SignedAndSent(inputs, !c.isFunder, c'.closingTx.value))
    && (c.state == FeeNegotiation || c.state == Finished ==> c'.remoteScript == c.remoteScript)
    && (c.state == Finished ==> c'.state == Finished && c'.closingTx == c.closingTx)
    && ((c.state == Idle || c.state == ShutdownInitiated) && c'.state == Finished ==>
          ShutdownSeen(inputs, c'.remoteScript))
  }

  lemma {:induction false} RunEndsWell(c: Closer, inputs: seq<(Msg, Env)>)
    ensures RunCloser(c, inputs).1 ==> EndedWell(c, RunCloser(c, inputs).0, inputs)
    decreases |inputs|
  {
    if inputs != [] {
      var (msg, env) := inputs[0];
      var (c1, r) := Process(c, msg, env);
      if !r.failed {
        RunEndsWell(c1, inputs[1..]);
        SeenLater(inputs);
        StepEndsWell(c, c1, msg, env, inputs);
      }
    }
  }

  lemma StepEndsWell(c: Closer, c1: Closer, msg: Msg, env: Env, inputs: seq<(Msg, Env)>)
    requires inputs != [] && inputs[0] == (msg, env) && c1 == Process(c, msg, env).0 && !Process(c, msg, env).1.failed
    ensures c1.isFunder == c.isFunder && c1.localScript == c.localScript
    ensures c.state == FeeNegotiation && c1.state == Finished ==>
              && c1.closingTx.Some? && PaysBothSides(c1, c1.closingTx.value)
              && SignedAndSent(inputs, !c.isFunder, c1.closingTx.value)
    ensures c.state == FeeNegotiation ==> c1.remoteScript == c.remoteScript && c1.state in {FeeNegotiation, Finished}
    ensures c.state == Idle || c.state == ShutdownInitiated ==>
              c1.state == FeeNegotiation && ShutdownSeen(inputs, c1.remoteScript)
    ensures c.state == Finished ==> c1 == c
  {
    if c.state == FeeNegotiation {
      NegotiationEndsIff(c, msg, env);
    } else if c.state == Idle || c.state == ShutdownInitiated {
      NegotiationStarts(c, msg, env);
    }
  }

  /**
    Whatever the peer sends, a new closer with a positive ideal fee first offers that
    ideal, makes every later offer between its own last one and the peer's current one
    (strictly, while it goes on from 10 sat or more), moves by at most 30%, and finishes
    only on a fee that it signed itself, after a message that carried the peer's signature of
    exactly the closing transaction, in a call whose broadcast succeeded. That transaction pays
    its own side to its own script and the peer to the address of its Shutdown.
  */
  lemma ArbitraryPeer(isFunder: bool, calculated: int, commitFee: int, script: Script, inputs: seq<(Msg, Env)>)
    requires ClampIdealFee(calculated, commitFee) > 0
    ensures var c := NewCloser(isFunder, calculated, commitFee, script);
            var rs := Rounds(c, inputs);
            && (|rs| > 0 ==> rs[0].offer == c.idealFee <= commitFee)
            && (forall i :: 0 < i < |rs| ==> LawfulRound(rs[i]) && rs[i].last == rs[i - 1].offer)
    ensures var (c', ok) := RunCloser(NewCloser(isFunder, calculated, commitFee, script), inputs);
            ok && c'.state == Finished ==>
              && c'.closingTx.Some?
              && var tx := c'.closingTx.value;
              && tx.fee in c'.priorOffers && c'.priorOffers[tx.fee] == Sig(isFunder, tx)
              && SignedAndSent(inputs, !isFunder, tx)
              && script == (if isFunder then tx.funderScript else tx.fundeeScript)
              && ShutdownSeen(inputs, if isFunder then tx.fundeeScript else tx.funderScript)
  {
    RoundsFrom(NewCloser(isFunder, calculated, commitFee, script), inputs);
    RunEndsWell(NewCloser(isFunder, calculated, commitFee, script), inputs);
  }
}
