/**
  The outputs of a revoked commitment and the transaction that claims them all. While the
  counterparty races to the second level, the list of outputs is rewritten in place between
  attempts.
*/
module Breach {
  import opened Chain

  datatype BreachedOutput = BreachedOutput(
    amount: int,
    op: OutPoint,
    witnessType: WitnessType,
    signDesc: SignDesc,
    secondLevelScript: seq<byte>)

  datatype RetributionInfo = RetributionInfo(
    commitHash: seq<byte>,
    chan: OutPoint,
    chainHash: seq<byte>,
    breachHeight: nat,
    outputs: seq<BreachedOutput>)

  /** What the wallet reports about a breach; outputs that are dust are missing. */
  datatype HtlcRetribution = HtlcRetribution(op: OutPoint, signDesc: SignDesc, secondLevelScript: seq<byte>,
                                             incoming: bool)

  datatype Claim = Claim(op: OutPoint, signDesc: SignDesc)

  function MakeBreached(op: OutPoint, w: WitnessType, script: seq<byte>, d: SignDesc): BreachedOutput {
    BreachedOutput(d.output.value, op, w, d, script)
  }

  /** HTLCs on the commitment itself, not yet taken to the second level. */
  predicate IsHtlc(o: BreachedOutput) {
    o.witnessType == HtlcAcceptedRevoke || o.witnessType == HtlcOfferedRevoke
  }

  /** Witness types that createJusticeTx knows; it omits all others. */
  predicate Recognized(w: WitnessType) {
    w in {CommitmentNoDelay, CommitmentRevoke, HtlcOfferedRevoke, HtlcAcceptedRevoke, HtlcSecondLevelRevoke}
  }

  predicate AllRecognized(outputs: seq<BreachedOutput>) {
    forall i | 0 <= i < |outputs| :: Recognized(outputs[i].witnessType)
  }

  predicate DistinctOps(outputs: seq<BreachedOutput>) {
    forall i, j | 0 <= i < j < |outputs| :: outputs[i].op != outputs[j].op
  }

  /** The local output, the remote output and every HTLC, in this order. */
  method NewBreachedOutputs(local: Option<Claim>, remote: Option<Claim>, htlcs: seq<HtlcRetribution>)
    returns (outputs: seq<BreachedOutput>)
    ensures AllRecognized(outputs)
    ensures |outputs| == (if local.Some? then 1 else 0) + (if remote.Some? then 1 else 0) + |htlcs|
    ensures local.Some? ==> IsClaim(outputs[0], local.value, CommitmentNoDelay)
    ensures remote.Some? ==> IsClaim(outputs[if local.Some? then 1 else 0], remote.value, CommitmentRevoke)
    ensures forall i | 0 <= i < |htlcs| :: FromHtlc(htlcs[i], outputs[|outputs| - |htlcs| + i])
  {
    outputs := [];
    if local.Some? {
      outputs := outputs + [MakeBreached(local.value.op, CommitmentNoDelay, [], local.value.signDesc)];
    }
    if remote.Some? {
      outputs := outputs + [MakeBreached(remote.value.op, CommitmentRevoke, [], remote.value.signDesc)];
    }
    ghost var base := outputs;
    for i := 0 to |htlcs|
      invariant AllRecognized(outputs) && |outputs| == |base| + i && outputs[..|base|] == base
      invariant forall j | 0 <= j < i ::
                  outputs[|base| + j] ==
                  MakeBreached(htlcs[j].op, HtlcKind(htlcs[j]), htlcs[j].secondLevelScript, htlcs[j].signDesc)
    {
      var w := HtlcOfferedRevoke;
      if htlcs[i].incoming {
        w := HtlcAcceptedRevoke;
      }
      outputs := outputs + [MakeBreached(htlcs[i].op, w, htlcs[i].secondLevelScript, htlcs[i].signDesc)];
    }
    forall i | 0 <= i < |htlcs|
      ensures FromHtlc(htlcs[i], outputs[|outputs| - |htlcs| + i])
    {
      assert outputs[|base| + i].op == htlcs[i].op;
    }
  }

  /** An output of the commitment itself, for its own value and without a second level. */
  predicate IsClaim(o: BreachedOutput, c: Claim, w: WitnessType) {
    o == BreachedOutput(c.signDesc.output.value, c.op, w, c.signDesc, [])
  }

  predicate FromHtlc(h: HtlcRetribution, o: BreachedOutput) {
    && IsHtlc(o) && o.op == h.op && o.amount == h.signDesc.output.value
    && (h.incoming <==> o.witnessType == HtlcAcceptedRevoke)
    && o.signDesc == h.signDesc && o.secondLevelScript == h.secondLevelScript
  }

  function HtlcKind(h: HtlcRetribution): WitnessType {
    if h.incoming then HtlcAcceptedRevoke else HtlcOfferedRevoke
  }

  /****** The justice transaction ******/

  function Inputs(outputs: seq<BreachedOutput>): seq<TxIn> {
    if outputs == [] then []
    else
      var o := outputs[|outputs| - 1];
      Inputs(outputs[..|outputs| - 1]) + (if Recognized(o.witnessType) then [TxIn(o.op, 0)] else [])
  }

  function Claimed(outputs: seq<BreachedOutput>): int {
    if outputs == [] then 0
    else
      var o := outputs[|outputs| - 1];
      Claimed(outputs[..|outputs| - 1]) + (if Recognized(o.witnessType) then o.amount else 0)
  }

  function JusticeOf(outputs: seq<BreachedOutput>, fee: int, script: seq<byte>): Tx {
    Tx(Inputs(outputs), Claimed(outputs) - fee, script, 0)
  }

  method CreateJusticeTx(outputs: array<BreachedOutput>, fee: int, script: seq<byte>) returns (r: Option<Tx>)
    ensures r == if Sane(JusticeOf(outputs[..], fee, script)) then Some(JusticeOf(outputs[..], fee, script)) else None
    ensures var tx := JusticeOf(outputs[..], fee, script);
            r.Some? <==> tx.inputs != [] && 0 <= tx.value <= 2_100_000_000_000_000 && NoDoubleInput(tx)
  {
    var inputs: seq<TxIn>, total := [], 0;
    for i := 0 to outputs.Length
      invariant inputs == Inputs(outputs[..i]) && total == Claimed(outputs[..i])
    {
      assert outputs[..i + 1][..i] == outputs[..i];
      if Recognized(outputs[i].witnessType) {
        inputs := inputs + [TxIn(outputs[i].op, 0)];
        total := total + outputs[i].amount;
      }
    }
    assert outputs[..outputs.Length] == outputs[..];
    var tx := Tx(inputs, total - fee, script, 0);
    r := if Sane(tx) then Some(tx) else None;
  }

  function Total(outputs: seq<BreachedOutput>): int {
    if outputs == [] then 0 else Total(outputs[..|outputs| - 1]) + outputs[|outputs| - 1].amount
  }

  lemma {:induction false} InputsInOrder(outputs: seq<BreachedOutput>)
    requires AllRecognized(outputs)
    ensures |Inputs(outputs)| == |outputs| && Claimed(outputs) == Total(outputs)
    ensures forall i | 0 <= i < |outputs| :: Inputs(outputs)[i] == TxIn(outputs[i].op, 0)
  {
    if outputs != [] {
      InputsInOrder(outputs[..|outputs| - 1]);
    }
  }

  /** One input per output, in order, for the sum of the amounts less the fee. */
  lemma JusticeSpendsAll(outputs: seq<BreachedOutput>, fee: int, script: seq<byte>)
    requires AllRecognized(outputs)
    ensures var tx := JusticeOf(outputs, fee, script);
            && |tx.inputs| == |outputs| && (forall i | 0 <= i < |outputs| :: tx.inputs[i] == TxIn(outputs[i].op, 0))
            && tx.value == Total(outputs) - fee && tx.script == script && tx.lockTime == 0
    ensures Sane(JusticeOf(outputs, fee, script)) <==>
            outputs != [] && DistinctOps(outputs) && 0 <= Total(outputs) - fee <= MAX_SATOSHI
  {
    InputsInOrder(outputs);
    var tx := JusticeOf(outputs, fee, script);
    if Sane(tx) {
      forall i, j | 0 <= i < j < |outputs|
        ensures outputs[i].op != outputs[j].op
      {
        assert tx.inputs[i].prev == outputs[i].op && tx.inputs[j].prev == outputs[j].op;
      }
    }
  }

  /****** Going to the second level ******/

  /** Point a breached HTLC at the output of the second-level transaction that spent it. */
  function Convert(o: BreachedOutput, hash: seq<byte>, value: int): BreachedOutput {
    o.(witnessType := HtlcSecondLevelRevoke, op := OutPoint(hash, 0), amount := value,
       signDesc := o.signDesc.(output := o.signDesc.output.(value := value), witnessScript := o.secondLevelScript))
  }

  /** What the spend subscription of an outpoint says when it is polled. */
  datatype Reply = Unspent | Spent(hash: seq<byte>, value: int) | Closed

  datatype Answer = Answer(registers: bool, reply: Reply)

  /** The outputs and the outpoints with a live spend subscription. */
  datatype Watch = Watch(outputs: seq<BreachedOutput>, cache: set<OutPoint>)

  predicate Polled(o: BreachedOutput, cache: set<OutPoint>, a: Answer) {
    IsHtlc(o) && (o.op in cache || a.registers)
  }

  function Visit(w: Watch, i: nat, a: Answer): (w': Watch)
    requires i < |w.outputs|
    ensures |w'.outputs| == |w.outputs|
  {
    var o := w.outputs[i];
    if !Polled(o, w.cache, a) then w
    else if a.reply.Spent? then Watch(w.outputs[i := Convert(o, a.reply.hash, a.reply.value)], w.cache - {o.op})
    else w.(cache := w.cache + {o.op})
  }

  /** The first `n` outputs have been visited. */
  function Pass(w: Watch, answers: nat -> Answer, n: nat): (w': Watch)
    requires n <= |w.outputs|
    ensures |w'.outputs| == |w.outputs|
  {
    if n == 0 then w else Visit(Pass(w, answers, n - 1), n - 1, answers(n - 1))
  }

  /** Poll every HTLC output and rewrite those that have been spent; a closed subscription ends the retribution. */
  method CheckSecondLevel(outputs: array<BreachedOutput>, cache: set<OutPoint>, answers: nat -> Answer)
    returns (ok: bool, live: set<OutPoint>)
    modifies outputs
    ensures ok ==> Watch(outputs[..], live) == Pass(Watch(old(outputs[..]), cache), answers, outputs.Length)
    ensures forall i | 0 <= i < outputs.Length :: OneVisit(old(outputs[i]), outputs[i], answers(i))
    ensures !ok ==> exists n :: 0 <= n < outputs.Length && answers(n).reply.Closed?
                                && outputs[..] == Pass(Watch(old(outputs[..]), cache), answers, n).outputs
  {
    live := cache;
    ghost var w := Watch(outputs[..], cache);
    for i := 0 to outputs.Length
      invariant Watch(outputs[..], live) == Pass(w, answers, i)
      invariant forall j | 0 <= j < i :: OneVisit(old(outputs[j]), outputs[j], answers(j))
      invariant forall j | i <= j < outputs.Length :: outputs[j] == old(outputs[j])
    {
      if !IsHtlc(outputs[i]) {
        continue;
      }
      if outputs[i].op !in live {
        if !answers(i).registers {
          continue;
        }
        live := live + {outputs[i].op};
      }
      match answers(i).reply {
        case Closed => return false, live;
        case Unspent =>
        case Spent(hash, value) =>
          live := live - {outputs[i].op};
          outputs[i] := Convert(outputs[i], hash, value);
      }
      assert live == Visit(Pass(w, answers, i), i, answers(i)).cache;
      assert outputs[..] == Visit(Pass(w, answers, i), i, answers(i)).outputs;
    }
    ok := true;
  }

  /** An output is as it was, or it is an HTLC reported as spent and claims the second-level output. */
  predicate OneVisit(o: BreachedOutput, o': BreachedOutput, a: Answer) {
    o' == o || (IsHtlc(o) && a.reply.Spent? && AtSecondLevel(o, o', a.reply.hash, a.reply.value))
  }

  /** Any number of attempts. */
  function Passes(w: Watch, rounds: seq<nat -> Answer>): (w': Watch)
    ensures |w'.outputs| == |w.outputs|
    decreases |rounds|
  {
    if rounds == [] then w
    else
      var before := Passes(w, rounds[..|rounds| - 1]);
      Pass(before, rounds[|rounds| - 1], |before.outputs|)
  }

  /** Retribution starts without subscriptions, on outputs of one transaction. */
  predicate Fresh(w: Watch) {
    w.cache == {} && DistinctOps(w.outputs) && AllRecognized(w.outputs)
  }

  /** `o` is untouched, or is an HTLC that was converted once, following `hash`. */
  predicate Evolved(o: BreachedOutput, o': BreachedOutput, hash: seq<byte>) {
    o' == o || (IsHtlc(o) && o' == Convert(o, hash, o'.amount))
  }

  ghost predicate AllEvolved(w0: Watch, w: Watch, spender: nat -> seq<byte>) {
    |w.outputs| == |w0.outputs| && forall i: nat | i < |w0.outputs| :: EvolvedAt(w0, w, spender, i)
  }

  predicate EvolvedAt(w0: Watch, w: Watch, spender: nat -> seq<byte>, i: nat) {
    i < |w0.outputs| && i < |w.outputs| && Evolved(w0.outputs[i], w.outputs[i], spender(i))
  }

  /** Subscriptions are kept for HTLC outputs that have not been converted, and for nothing else. */
  ghost predicate CacheIsCurrent(w: Watch) {
    forall op <- w.cache :: exists i: nat :: HeldBy(w, i, op)
  }

  predicate HeldBy(w: Watch, i: nat, op: OutPoint) {
    i < |w.outputs| && IsHtlc(w.outputs[i]) && w.outputs[i].op == op
  }

  /** The chain has one spender for each output, and the notifier reports no other. */
  ghost predicate Truthful(answers: nat -> Answer, spender: nat -> seq<byte>) {
    forall i :: answers(i).reply.Spent? ==> answers(i).reply.hash == spender(i)
  }

  lemma VisitEvolves(w0: Watch, w: Watch, i: nat, a: Answer, spender: nat -> seq<byte>)
    requires Fresh(w0) && AllEvolved(w0, w, spender) && CacheIsCurrent(w) && i < |w.outputs|
    requires a.reply.Spent? ==> a.reply.hash == spender(i)
    ensures AllEvolved(w0, Visit(w, i, a), spender) && CacheIsCurrent(Visit(w, i, a))
  {
    var o, w' := w.outputs[i], Visit(w, i, a);
    assert EvolvedAt(w0, w, spender, i);
    forall j: nat | j < |w0.outputs|
      ensures EvolvedAt(w0, w', spender, j)
    {
      assert EvolvedAt(w0, w, spender, j);
    }
    forall op | op in w'.cache
      ensures exists j: nat :: HeldBy(w', j, op)
    {
      if op == o.op && Polled(o, w.cache, a) {
        assert HeldBy(w', i, op);
      } else {
        var j: nat :| HeldBy(w, j, op);
        assert HeldBy(w', j, op);
      }
    }
  }

  /** One visit, with the answers of an attempt. */
  lemma VisitTruthful(w0: Watch, w: Watch, answers: nat -> Answer, i: nat, spender: nat -> seq<byte>)
    requires Fresh(w0) && AllEvolved(w0, w, spender) && CacheIsCurrent(w) && i < |w.outputs|
    requires Truthful(answers, spender)
    ensures AllEvolved(w0, Visit(w, i, answers(i)), spender) && CacheIsCurrent(Visit(w, i, answers(i)))
  {
    VisitEvolves(w0, w, i, answers(i), spender);
  }

  lemma {:induction false} PassEvolves(w0: Watch, w: Watch, answers: nat -> Answer, n: nat, spender: nat -> seq<byte>)
    requires Fresh(w0) && AllEvolved(w0, w, spender) && CacheIsCurrent(w) && n <= |w.outputs|
    requires Truthful(answers, spender)
    ensures AllEvolved(w0, Pass(w, answers, n), spender) && CacheIsCurrent(Pass(w, answers, n))
  {
    if n > 0 {
      PassEvolves(w0, w, answers, n - 1, spender);
      var w1 := Pass(w, answers, n - 1);
      VisitTruthful(w0, w1, answers, n - 1, spender);
    }
  }

  /**
    Over any number of attempts the list keeps its length and order, only HTLC outputs are ever
    rewritten, each to its second level, and the subscriptions are those of unconverted HTLCs.
  */
  lemma {:induction false} RetriesEvolve(w0: Watch, rounds: seq<nat -> Answer>, spender: nat -> seq<byte>)
    requires Fresh(w0) && forall r | 0 <= r < |rounds| :: Truthful(rounds[r], spender)
    ensures AllEvolved(w0, Passes(w0, rounds), spender) && CacheIsCurrent(Passes(w0, rounds))
    ensures AllRecognized(Passes(w0, rounds).outputs)
    decreases |rounds|
  {
    RetriesRecognized(w0, rounds);
    if rounds != [] {
      var n := |rounds| - 1;
      RetriesEvolve(w0, rounds[..n], spender);
      var before := Passes(w0, rounds[..n]);
      PassEvolves(w0, before, rounds[n], |before.outputs|, spender);
    }
  }

  lemma {:induction false} PassKeepsOthers(w: Watch, answers: nat -> Answer, n: nat, i: nat)
    requires n <= |w.outputs| && i < |w.outputs| && !IsHtlc(w.outputs[i])
    ensures Pass(w, answers, n).outputs[i] == w.outputs[i]
  {
    if n > 0 {
      PassKeepsOthers(w, answers, n - 1, i);
    }
  }

  lemma {:induction false} PassChangesHtlcs(w: Watch, answers: nat -> Answer, n: nat, i: nat)
    requires n <= |w.outputs| && i < |w.outputs|
    ensures var o := Pass(w, answers, n).outputs[i]; o == w.outputs[i] || !IsHtlc(o)
  {
    if n > 0 {
      PassChangesHtlcs(w, answers, n - 1, i);
    }
  }

  lemma {:induction false} RetriesKeepOthers(w: Watch, rounds: seq<nat -> Answer>, i: nat)
    requires i < |w.outputs|
    ensures !IsHtlc(w.outputs[i]) ==> Passes(w, rounds).outputs[i] == w.outputs[i]
    ensures Passes(w, rounds).outputs[i] == w.outputs[i] || !IsHtlc(Passes(w, rounds).outputs[i])
    decreases |rounds|
  {
    if rounds != [] {
      var n := |rounds| - 1;
      RetriesKeepOthers(w, rounds[..n], i);
      var before := Passes(w, rounds[..n]);
      PassChangesHtlcs(before, rounds[n], |before.outputs|, i);
      if !IsHtlc(before.outputs[i]) {
        PassKeepsOthers(before, rounds[n], |before.outputs|, i);
      }
    }
  }

  lemma {:induction false} PassesAppend(w: Watch, rounds: seq<nat -> Answer>, more: seq<nat -> Answer>)
    ensures Passes(w, rounds + more) == Passes(Passes(w, rounds), more)
    decreases |more|
  {
    if more == [] {
      assert rounds + more == rounds;
    } else {
      var n := |more| - 1;
      PassesAppend(w, rounds, more[..n]);
      assert (rounds + more)[..|rounds| + n] == rounds + more[..n];
    }
  }

  /** Once an output has been rewritten, no later attempt changes it again. */
  lemma RewrittenAtMostOnce(w: Watch, rounds: seq<nat -> Answer>, more: seq<nat -> Answer>, i: nat)
    requires i < |w.outputs| && Passes(w, rounds).outputs[i] != w.outputs[i]
    ensures Passes(w, rounds + more).outputs[i] == Passes(w, rounds).outputs[i]
  {
    PassesAppend(w, rounds, more);
    RetriesKeepOthers(w, rounds, i);
    RetriesKeepOthers(Passes(w, rounds), more, i);
  }

  /****** When a justice transaction can be built ******/

  lemma {:induction false} PassRecognized(w: Watch, answers: nat -> Answer, n: nat)
    requires n <= |w.outputs| && AllRecognized(w.outputs)
    ensures AllRecognized(Pass(w, answers, n).outputs)
  {
    if n > 0 {
      PassRecognized(w, answers, n - 1);
    }
  }

  lemma {:induction false} RetriesRecognized(w: Watch, rounds: seq<nat -> Answer>)
    requires AllRecognized(w.outputs)
    ensures AllRecognized(Passes(w, rounds).outputs)
    decreases |rounds|
  {
    if rounds != [] {
      var n := |rounds| - 1;
      RetriesRecognized(w, rounds[..n]);
      PassRecognized(Passes(w, rounds[..n]), rounds[n], |w.outputs|);
    }
  }

  /** A subscription for output `i` has been registered in some attempt. */
  ghost predicate Registered(rounds: seq<nat -> Answer>, i: nat) {
    exists q :: 0 <= q < |rounds| && rounds[q](i).registers
  }

  /** Its spend was reported in an attempt at or after a registration. */
  ghost predicate Reported(rounds: seq<nat -> Answer>, i: nat) {
    exists r :: 0 <= r < |rounds| && rounds[r](i).reply.Spent? && Registered(rounds[..r + 1], i)
  }

  lemma RegisteredSnoc(rounds: seq<nat -> Answer>, a: nat -> Answer, i: nat)
    ensures Registered(rounds + [a], i) <==> Registered(rounds, i) || a(i).registers
  {
    var all := rounds + [a];
    if Registered(rounds, i) {
      var q :| 0 <= q < |rounds| && rounds[q](i).registers;
      assert all[q](i).registers;
    }
    if a(i).registers {
      assert all[|rounds|](i).registers;
    }
  }

  lemma ReportedSnoc(rounds: seq<nat -> Answer>, a: nat -> Answer, i: nat)
    ensures Reported(rounds + [a], i) <==> Reported(rounds, i) || (a(i).reply.Spent? && Registered(rounds + [a], i))
  {
    var all := rounds + [a];
    if Reported(rounds, i) {
      var r :| 0 <= r < |rounds| && rounds[r](i).reply.Spent? && Registered(rounds[..r + 1], i);
      assert all[..r + 1] == rounds[..r + 1];
      assert all[r](i).reply.Spent?;
    }
    if a(i).reply.Spent? && Registered(all, i) {
      assert all[..|rounds| + 1] == all;
      assert all[|rounds|](i).reply.Spent?;
    }
    if Reported(all, i) {
      var r :| 0 <= r < |all| && all[r](i).reply.Spent? && Registered(all[..r + 1], i);
      if r < |rounds| {
        assert all[..r + 1] == rounds[..r + 1];
        assert rounds[r](i).reply.Spent?;
      } else {
        assert all[..r + 1] == all;
      }
    }
  }

  /** No other HTLC shares the outpoint of output `i`. */
  predicate OwnOp(w: Watch, i: nat)
    requires i < |w.outputs|
  {
    forall j | 0 <= j < |w.outputs| && j != i && IsHtlc(w.outputs[j]) :: w.outputs[j].op != w.outputs[i].op
  }

  /** What a pass does to one HTLC and to its subscription, when the pass gets there and only then. */
  lemma {:induction false} PassAt(w: Watch, answers: nat -> Answer, n: nat, i: nat)
    requires n <= |w.outputs| && i < |w.outputs| && IsHtlc(w.outputs[i]) && OwnOp(w, i)
    ensures var o, a, w' := w.outputs[i], answers(i), Pass(w, answers, n);
            if i < n && Polled(o, w.cache, a) && a.reply.Spent? then
              w'.outputs[i] == Convert(o, a.reply.hash, a.reply.value)
            else
              w'.outputs[i] == o && (o.op in w'.cache <==> if i < n then Polled(o, w.cache, a) else o.op in w.cache)
  {
    if n > 0 {
      PassAt(w, answers, n - 1, i);
      if n - 1 != i {
        PassChangesHtlcs(w, answers, n - 1, n - 1);
      }
    }
  }

  /**
    An HTLC is rewritten if and only if its spend was reported; until then its subscription is live
    if and only if it was registered.
  */
  lemma {:induction false} ConvertedIff(w0: Watch, rounds: seq<nat -> Answer>, i: nat)
    requires w0.cache == {} && DistinctOps(w0.outputs) && i < |w0.outputs| && IsHtlc(w0.outputs[i])
    ensures var w := Passes(w0, rounds);
            if Reported(rounds, i) then !IsHtlc(w.outputs[i])
            else w.outputs[i] == w0.outputs[i] && (w0.outputs[i].op in w.cache <==> Registered(rounds, i))
    decreases |rounds|
  {
    if rounds != [] {
      var n := |rounds| - 1;
      var before, a := rounds[..n], rounds[n];
      assert rounds == before + [a];
      ConvertedIff(w0, before, i);
      RegisteredSnoc(before, a, i);
      ReportedSnoc(before, a, i);
      var w := Passes(w0, before);
      if Reported(before, i) {
        PassKeepsOthers(w, a, |w.outputs|, i);
      } else {
        forall j | 0 <= j < |w.outputs| && j != i && IsHtlc(w.outputs[j])
          ensures w.outputs[j].op != w.outputs[i].op
        {
          RetriesKeepOthers(w0, before, j);
        }
        PassAt(w, a, |w.outputs|, i);
      }
    }
  }

  /****** What a rewritten output holds ******/

  /** The first report of a spend, by transaction and value of its first output, at or after a registration. */
  ghost function FirstSpend(rounds: seq<nat -> Answer>, i: nat): Option<(seq<byte>, int)>
    decreases |rounds|
  {
    if rounds == [] then None
    else
      var n := |rounds| - 1;
      var earlier := FirstSpend(rounds[..n], i);
      var reply := rounds[n](i).reply;
      if earlier.Some? then earlier
      else if reply.Spent? && Registered(rounds, i) then Some((reply.hash, reply.value)) else None
  }

  lemma {:induction false} FirstSpendIff(rounds: seq<nat -> Answer>, i: nat)
    ensures FirstSpend(rounds, i).Some? <==> Reported(rounds, i)
    decreases |rounds|
  {
    if rounds != [] {
      var n := |rounds| - 1;
      assert rounds == rounds[..n] + [rounds[n]];
      FirstSpendIff(rounds[..n], i);
      ReportedSnoc(rounds[..n], rounds[n], i);
    }
  }

  /**
    `o'` claims the second-level output: the first output of the transaction that spent `o`, for the
    value it has there, also when signing, with the second-level script; nothing else differs.
  */
  predicate AtSecondLevel(o: BreachedOutput, o': BreachedOutput, hash: seq<byte>, value: int) {
    && o'.witnessType == HtlcSecondLevelRevoke && o'.op == OutPoint(hash, 0) && o'.amount == value
    && o'.secondLevelScript == o.secondLevelScript
    && var (d, d') := (o.signDesc, o'.signDesc);
       && d'.output == TxOut(value, d.output.script) && d'.witnessScript == o.secondLevelScript
       && d'.family == d.family && d'.index == d.index && d'.pubKey == d.pubKey && d'.hashType == d.hashType
       && d'.singleTweak == d.singleTweak && d'.doubleTweak == d.doubleTweak
  }

  /** After any attempts an HTLC holds what its first report said, and any other output is as it was. */
  lemma {:induction false} RewrittenAsReported(w0: Watch, rounds: seq<nat -> Answer>, i: nat)
    requires w0.cache == {} && DistinctOps(w0.outputs) && i < |w0.outputs|
    ensures var o, o', spend := w0.outputs[i], Passes(w0, rounds).outputs[i], FirstSpend(rounds, i);
            if IsHtlc(o) && spend.Some? then AtSecondLevel(o, o', spend.value.0, spend.value.1) else o' == o
    decreases |rounds|
  {
    if rounds != [] && IsHtlc(w0.outputs[i]) {
      var n := |rounds| - 1;
      var before, a := rounds[..n], rounds[n];
      assert rounds == before + [a];
      RewrittenAsReported(w0, before, i);
      ConvertedIff(w0, before, i);
      FirstSpendIff(before, i);
      RegisteredSnoc(before, a, i);
      var w := Passes(w0, before);
      if Reported(before, i) {
        PassKeepsOthers(w, a, |w.outputs|, i);
      } else {
        StillOwnOp(w0, before, i);
        PassAt(w, a, |w.outputs|, i);
      }
    } else if rounds != [] {
      RetriesKeepOthers(w0, rounds, i);
    }
  }

  /** An unconverted HTLC shares its outpoint with no other unconverted one. */
  lemma StillOwnOp(w0: Watch, rounds: seq<nat -> Answer>, i: nat)
    requires DistinctOps(w0.outputs) && i < |w0.outputs| && Passes(w0, rounds).outputs[i] == w0.outputs[i]
    ensures OwnOp(Passes(w0, rounds), i)
  {
    var w := Passes(w0, rounds);
    forall j | 0 <= j < |w.outputs| && j != i && IsHtlc(w.outputs[j])
      ensures w.outputs[j].op != w.outputs[i].op
    {
      RetriesKeepOthers(w0, rounds, j);
    }
  }

  /** The value of output `i` on the chain: what was first reported, or what it was recorded with. */
  ghost function ChainValue(w0: Watch, rounds: seq<nat -> Answer>, i: nat): int
    requires i < |w0.outputs|
  {
    if IsHtlc(w0.outputs[i]) && FirstSpend(rounds, i).Some? then FirstSpend(rounds, i).value.1 else w0.outputs[i].amount
  }

  ghost function ChainTotal(w0: Watch, rounds: seq<nat -> Answer>, n: nat): int
    requires n <= |w0.outputs|
  {
    if n == 0 then 0 else ChainTotal(w0, rounds, n - 1) + ChainValue(w0, rounds, n - 1)
  }

  lemma {:induction false} TotalIsChainTotal(w0: Watch, rounds: seq<nat -> Answer>, n: nat)
    requires w0.cache == {} && DistinctOps(w0.outputs) && n <= |w0.outputs|
    ensures Total(Passes(w0, rounds).outputs[..n]) == ChainTotal(w0, rounds, n)
  {
    if n > 0 {
      TotalIsChainTotal(w0, rounds, n - 1);
      RewrittenAsReported(w0, rounds, n - 1);
      var outputs := Passes(w0, rounds).outputs;
      assert outputs[..n][..n - 1] == outputs[..n - 1];
    }
  }

  /** After any attempts the justice transaction pays, with its fee, the sum of the values on the chain. */
  lemma JusticePaysChainValue(w0: Watch, rounds: seq<nat -> Answer>, fee: int, script: seq<byte>)
    requires Fresh(w0)
    ensures JusticeOf(Passes(w0, rounds).outputs, fee, script).value + fee == ChainTotal(w0, rounds, |w0.outputs|)
  {
    RetriesRecognized(w0, rounds);
    JusticeSpendsAll(Passes(w0, rounds).outputs, fee, script);
    TotalIsChainTotal(w0, rounds, |w0.outputs|);
    assert Passes(w0, rounds).outputs[..|w0.outputs|] == Passes(w0, rounds).outputs;
  }

  /** Output `i` has been taken to the second level. */
  ghost predicate Moved(w0: Watch, rounds: seq<nat -> Answer>, i: nat)
    requires i < |w0.outputs|
  {
    IsHtlc(w0.outputs[i]) && Reported(rounds, i)
  }

  /** No two reported HTLCs share a spender, and none leads to the outpoint of another output. */
  ghost predicate SpendersApart(w0: Watch, rounds: seq<nat -> Answer>, spender: nat -> seq<byte>) {
    forall i, j | 0 <= i < |w0.outputs| && 0 <= j < |w0.outputs| && i != j && Moved(w0, rounds, i) ::
      if Moved(w0, rounds, j) then spender(i) != spender(j) else OutPoint(spender(i), 0) != w0.outputs[j].op
  }

  ghost predicate AllTruthful(rounds: seq<nat -> Answer>, spender: nat -> seq<byte>) {
    forall r | 0 <= r < |rounds| :: Truthful(rounds[r], spender)
  }

  /** Where each output points after any number of attempts. */
  lemma CurrentOp(w0: Watch, rounds: seq<nat -> Answer>, spender: nat -> seq<byte>, i: nat)
    requires Fresh(w0) && AllTruthful(rounds, spender) && i < |w0.outputs|
    ensures Passes(w0, rounds).outputs[i].op ==
            if Moved(w0, rounds, i) then OutPoint(spender(i), 0) else w0.outputs[i].op
  {
    RetriesEvolve(w0, rounds, spender);
    var o := Passes(w0, rounds).outputs[i];
    assert EvolvedAt(w0, Passes(w0, rounds), spender, i);
    if IsHtlc(w0.outputs[i]) {
      ConvertedIff(w0, rounds, i);
    }
  }

  lemma DistinctIff(w0: Watch, rounds: seq<nat -> Answer>, spender: nat -> seq<byte>)
    requires Fresh(w0) && AllTruthful(rounds, spender)
    ensures DistinctOps(Passes(w0, rounds).outputs) <==> SpendersApart(w0, rounds, spender)
  {
    var outputs := Passes(w0, rounds).outputs;
    forall i | 0 <= i < |outputs|
      ensures outputs[i].op == if Moved(w0, rounds, i) then OutPoint(spender(i), 0) else w0.outputs[i].op
    {
      CurrentOp(w0, rounds, spender, i);
    }
    if DistinctOps(outputs) {
      forall i, j | 0 <= i < |w0.outputs| && 0 <= j < |w0.outputs| && i != j && Moved(w0, rounds, i)
        ensures if Moved(w0, rounds, j) then spender(i) != spender(j) else OutPoint(spender(i), 0) != w0.outputs[j].op
      {
        assert outputs[i].op != outputs[j].op;
      }
    }
    if SpendersApart(w0, rounds, spender) {
      forall i, j | 0 <= i < j < |outputs|
        ensures outputs[i].op != outputs[j].op
      {
        assert Moved(w0, rounds, i) || Moved(w0, rounds, j) || w0.outputs[i].op != w0.outputs[j].op;
      }
    }
  }

  /**
    After any attempts, a valid justice transaction exists if and only if there is something to
    claim, the fee leaves a valid value, no two reported HTLCs share a spender, and none was led to
    the outpoint of another output.
  */
  lemma JusticeAfterRetries(w0: Watch, rounds: seq<nat -> Answer>, spender: nat -> seq<byte>, fee: int,
                            script: seq<byte>)
    requires Fresh(w0) && AllTruthful(rounds, spender)
    ensures var outputs := Passes(w0, rounds).outputs;
            && AllRecognized(outputs)
            && (Sane(JusticeOf(outputs, fee, script)) <==>
                  outputs != [] && 0 <= Total(outputs) - fee <= MAX_SATOSHI && SpendersApart(w0, rounds, spender))
  {
    RetriesRecognized(w0, rounds);
    JusticeSpendsAll(Passes(w0, rounds).outputs, fee, script);
    DistinctIff(w0, rounds, spender);
  }

  lemma ReportedStays(rounds: seq<nat -> Answer>, more: seq<nat -> Answer>, i: nat)
    requires Reported(rounds, i)
    ensures Reported(rounds + more, i)
  {
    var r :| 0 <= r < |rounds| && rounds[r](i).reply.Spent? && Registered(rounds[..r + 1], i);
    assert (rounds + more)[..r + 1] == rounds[..r + 1];
    assert (rounds + more)[r](i).reply.Spent?;
  }

  /**
    When one transaction has spent two of the HTLC outputs, as our own earlier justice transaction
    does, no later attempt yields a valid transaction, whatever the fee and in whichever attempts
    the two spends were reported.
  */
  lemma SharedSpenderBlocksJustice(w0: Watch, rounds: seq<nat -> Answer>, more: seq<nat -> Answer>,
                                   spender: nat -> seq<byte>, i: nat, j: nat, fee: int, script: seq<byte>)
    requires Fresh(w0) && AllTruthful(rounds + more, spender) && i < |w0.outputs| && j < |w0.outputs| && i != j
    requires Moved(w0, rounds, i) && Moved(w0, rounds, j) && spender(i) == spender(j)
    ensures !Sane(JusticeOf(Passes(w0, rounds + more).outputs, fee, script))
  {
    ReportedStays(rounds, more, i);
    ReportedStays(rounds, more, j);
    assert Moved(w0, rounds + more, i) && Moved(w0, rounds + more, j);
    JusticeAfterRetries(w0, rounds + more, spender, fee, script);
  }
}
