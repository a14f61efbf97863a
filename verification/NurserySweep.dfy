/** The sweep transaction of a kindergarten class: what it spends, and that no timelock is violated. */
module NurserySweep {
  import opened Chain
  import opened NurseryLedger
  import opened NurseryStore
  import opened NurserySums

  predicate IsKind(kid: Kid, cltv: bool) {
    if cltv then Cltv(kid.witnessType) else Csv(kid.witnessType)
  }

  /** CSV inputs carry their delay as sequence number. */
  function InputOf(kid: Kid, cltv: bool): TxIn {
    TxIn(kid.op, if cltv then 0 else kid.blocksToMaturity)
  }

  /** The inputs for the kids of one kind, in order. */
  function Inputs(kids: seq<Kid>, cltv: bool): seq<TxIn> {
    if kids == [] then []
    else
      var kid := kids[|kids| - 1];
      Inputs(kids[..|kids| - 1], cltv) + (if IsKind(kid, cltv) then [InputOf(kid, cltv)] else [])
  }

  function SweptAmount(kids: seq<Kid>): int {
    if kids == [] then 0
    else
      var kid := kids[|kids| - 1];
      SweptAmount(kids[..|kids| - 1]) + (if Known(kid.witnessType) then kid.amount else 0)
  }

  /** All CSV inputs, then all CLTV inputs; the class height as lock time if there is any of the latter. */
  function SweepOf(kids: seq<Kid>, h: nat, fee: int, script: seq<byte>): Tx {
    Tx(Inputs(kids, false) + Inputs(kids, true), SweptAmount(kids) - fee, script,
       if Inputs(kids, true) != [] then h else 0)
  }

  method CreateSweepTx(kids: seq<Kid>, h: nat, fee: int, script: seq<byte>) returns (r: Option<Tx>)
    ensures r == if Sane(SweepOf(kids, h, fee, script)) then Some(SweepOf(kids, h, fee, script)) else None
    ensures var tx := SweepOf(kids, h, fee, script);
            r.Some? <==> tx.inputs != [] && 0 <= tx.value <= 2_100_000_000_000_000 && NoDoubleInput(tx)
  {
    var csv, cltv: seq<TxIn>, total := [], [], 0;
    for i := 0 to |kids|
      invariant csv == Inputs(kids[..i], false) && cltv == Inputs(kids[..i], true) && total == SweptAmount(kids[..i])
    {
      assert kids[..i + 1][..i] == kids[..i];
      if Csv(kids[i].witnessType) {
        csv := csv + [TxIn(kids[i].op, kids[i].blocksToMaturity)];
        total := total + kids[i].amount;
      } else if Cltv(kids[i].witnessType) {
        cltv := cltv + [TxIn(kids[i].op, 0)];
        total := total + kids[i].amount;
      }
    }
    assert kids[..|kids|] == kids;
    var lockTime := 0;
    if |cltv| > 0 {
      lockTime := h;
    }
    var tx := Tx(csv + cltv, total - fee, script, lockTime);
    r := if Sane(tx) then Some(tx) else None;
  }

  ghost function Prevs(inputs: seq<TxIn>): set<OutPoint> {
    set i | 0 <= i < |inputs| :: inputs[i].prev
  }

  ghost function KindOps(kids: seq<Kid>, cltv: bool): set<OutPoint> {
    set j | 0 <= j < |kids| && IsKind(kids[j], cltv) :: kids[j].op
  }

  lemma {:induction false} InputsSpendKind(kids: seq<Kid>, cltv: bool)
    ensures Prevs(Inputs(kids, cltv)) == KindOps(kids, cltv)
  {
    if kids != [] {
      var n := |kids| - 1;
      var kid, rest := kids[n], kids[..n];
      InputsSpendKind(rest, cltv);
      var added := if IsKind(kid, cltv) then {kid.op} else {};
      assert KindOps(kids, cltv) == KindOps(rest, cltv) + added by {
        assert forall j | 0 <= j < n :: rest[j] == kids[j];
      }
      var xs := Inputs(rest, cltv);
      if IsKind(kid, cltv) {
        assert Inputs(kids, cltv) == xs + [InputOf(kid, cltv)];
        PrevsAppend(xs, InputOf(kid, cltv));
      } else {
        assert Inputs(kids, cltv) == xs;
      }
    }
  }

  lemma PrevsAppend(xs: seq<TxIn>, x: TxIn)
    ensures Prevs(xs + [x]) == Prevs(xs) + {x.prev}
  {
    var ys := xs + [x];
    assert ys[|xs|] == x;
    assert forall i | 0 <= i < |xs| :: ys[i] == xs[i];
  }

  /** The outpoints of a class that a sweep is able to spend. */
  ghost function KnownOps(l: Ledger, h: nat): set<OutPoint> {
    set id | id in l.stages && KndrAt(l, id, h) && Known(l.stages[id].kid.witnessType) :: id.op
  }

  lemma ClassOps(l: Ledger, h: nat, kids: seq<Kid>)
    requires ListsClass(l, h, kids)
    ensures KindOps(kids, false) + KindOps(kids, true) == KnownOps(l, h)
  {
    forall op | op in KnownOps(l, h)
      ensures op in KindOps(kids, false) + KindOps(kids, true)
    {
      var id :| id in l.stages && KndrAt(l, id, h) && Known(l.stages[id].kid.witnessType) && id.op == op;
      var j :| 0 <= j < |kids| && IdOf(kids[j]) == id;
      assert kids[j].op == op;
    }
    forall op | op in KindOps(kids, false) + KindOps(kids, true)
      ensures op in KnownOps(l, h)
    {
      var j :| 0 <= j < |kids| && Known(kids[j].witnessType) && kids[j].op == op;
      assert KndrAt(l, IdOf(kids[j]), h);
    }
  }

  /** The sweep of a class spends its outputs of known witness type and nothing else. */
  lemma SweepSpendsClass(l: Ledger, h: nat, kids: seq<Kid>, fee: int, script: seq<byte>)
    requires ListsClass(l, h, kids)
    ensures Prevouts(SweepOf(kids, h, fee, script)) == KnownOps(l, h)
  {
    InputsSpendKind(kids, false);
    InputsSpendKind(kids, true);
    ClassOps(l, h, kids);
    PrevsConcat(Inputs(kids, false), Inputs(kids, true));
  }

  lemma PrevsConcat(xs: seq<TxIn>, ys: seq<TxIn>)
    ensures Prevs(xs + ys) == Prevs(xs) + Prevs(ys)
  {
    var zs := xs + ys;
    assert forall i | 0 <= i < |xs| :: zs[i] == xs[i];
    assert forall i | 0 <= i < |ys| :: zs[|xs| + i] == ys[i];
  }

  /****** What the sweep pays ******/

  /** The sweepable ones among the first `n` of a listed class. */
  ghost function SweepableIn(kids: seq<Kid>, n: nat): set<Id>
    requires n <= |kids|
  {
    set j | 0 <= j < n && Known(kids[j].witnessType) :: IdOf(kids[j])
  }

  lemma {:induction false} SweptSoFar(l: Ledger, h: nat, kids: seq<Kid>, n: nat)
    requires ListsClass(l, h, kids) && n <= |kids|
    ensures SweptAmount(kids[..n]) == Sum(SweepableIn(kids, n), Amount(l))
  {
    if n == 0 {
      assert SweepableIn(kids, 0) == {};
    } else {
      SweptSoFar(l, h, kids, n - 1);
      var kid := kids[n - 1];
      assert kids[..n][..n - 1] == kids[..n - 1];
      assert IdOf(kid) !in SweepableIn(kids, n - 1);
      if Known(kid.witnessType) {
        assert SweepableIn(kids, n) == SweepableIn(kids, n - 1) + {IdOf(kid)};
        SumTake(SweepableIn(kids, n), Amount(l), IdOf(kid));
        assert SweepableIn(kids, n) - {IdOf(kid)} == SweepableIn(kids, n - 1);
      } else {
        assert SweepableIn(kids, n) == SweepableIn(kids, n - 1);
      }
    }
  }

  /**
    The sweep of a class pays out, with the fee, the sum of the amounts of all its sweepable outputs
    as the ledger has them, to the given script, and carries a lock time only for CLTV inputs.
  */
  lemma SweepPaysClass(l: Ledger, h: nat, kids: seq<Kid>, fee: int, script: seq<byte>)
    requires ListsClass(l, h, kids)
    ensures var tx := SweepOf(kids, h, fee, script);
            && tx.value + fee == Sum(Sweepable(l, h), Amount(l)) && tx.script == script
            && tx.lockTime == if exists id <- Sweepable(l, h) :: Cltv(l.stages[id].kid.witnessType) then h else 0
  {
    SweptSoFar(l, h, kids, |kids|);
    assert kids[..|kids|] == kids;
    forall id | id in Sweepable(l, h)
      ensures id in SweepableIn(kids, |kids|)
    {
      var i :| 0 <= i < |kids| && IdOf(kids[i]) == id;
    }
    assert SweepableIn(kids, |kids|) == Sweepable(l, h);
    InputsSpendKind(kids, true);
    LockTimeIff(l, h, kids);
  }

  lemma LockTimeIff(l: Ledger, h: nat, kids: seq<Kid>)
    requires ListsClass(l, h, kids)
    ensures Inputs(kids, true) != [] <==> exists id <- Sweepable(l, h) :: Cltv(l.stages[id].kid.witnessType)
  {
    InputsSpendKind(kids, true);
    if Inputs(kids, true) != [] {
      assert Inputs(kids, true)[0].prev in Prevs(Inputs(kids, true));
      var j :| 0 <= j < |kids| && IsKind(kids[j], true);
      assert IdOf(kids[j]) in Sweepable(l, h);
    }
    if id :| id in Sweepable(l, h) && Cltv(l.stages[id].kid.witnessType) {
      var j :| 0 <= j < |kids| && IdOf(kids[j]) == id;
      assert kids[j].op in KindOps(kids, true);
    }
  }

  /**
    The transaction may be mined in any block above `h`. A CSV input was confirmed at least
    `sequence` blocks before `h` (BIP 68), and a CLTV input's lock is at most the lock time, which
    is `h` itself (BIP 65).
  */
  predicate InputUnlocked(input: TxIn, lockTime: nat, kid: Kid, h: nat) {
    && input.prev == kid.op
    && Known(kid.witnessType)
    && (Csv(kid.witnessType) ==>
          input.sequence == kid.blocksToMaturity && (input.sequence > 0 ==> kid.confHeight + input.sequence <= h))
    && (Cltv(kid.witnessType) ==> input.sequence == 0 && kid.absoluteMaturity <= lockTime == h)
  }

  ghost predicate UnlockedBy(input: TxIn, lockTime: nat, kids: seq<Kid>, h: nat) {
    exists j :: 0 <= j < |kids| && InputUnlocked(input, lockTime, kids[j], h)
  }

  ghost predicate LocksMet(tx: Tx, kids: seq<Kid>, h: nat) {
    forall i | 0 <= i < |tx.inputs| :: UnlockedBy(tx.inputs[i], tx.lockTime, kids, h)
  }

  lemma {:induction false} InputsUnlocked(kids: seq<Kid>, cltv: bool, lockTime: nat, h: nat)
    requires forall j | 0 <= j < |kids| :: Ripe(kids[j], h)
    requires cltv ==> lockTime == h
    ensures forall i | 0 <= i < |Inputs(kids, cltv)| :: UnlockedBy(Inputs(kids, cltv)[i], lockTime, kids, h)
  {
    if kids != [] {
      var n := |kids| - 1;
      var rest := kids[..n];
      InputsUnlocked(rest, cltv, lockTime, h);
      forall i | 0 <= i < |Inputs(kids, cltv)|
        ensures UnlockedBy(Inputs(kids, cltv)[i], lockTime, kids, h)
      {
        if i < |Inputs(rest, cltv)| {
          var j :| 0 <= j < n && InputUnlocked(Inputs(rest, cltv)[i], lockTime, rest[j], h);
          assert InputUnlocked(Inputs(kids, cltv)[i], lockTime, kids[j], h);
        } else {
          assert InputUnlocked(Inputs(kids, cltv)[i], lockTime, kids[n], h);
        }
      }
    }
  }

  lemma SweepMeetsLocks(l: Ledger, h: nat, kids: seq<Kid>, fee: int, script: seq<byte>)
    requires Sound(l) && ListsClass(l, h, kids)
    ensures LocksMet(SweepOf(kids, h, fee, script), kids, h)
  {
    var tx := SweepOf(kids, h, fee, script);
    forall j | 0 <= j < |kids|
      ensures Ripe(kids[j], h)
    {
      assert Placed(l.stages[IdOf(kids[j])]);
    }
    InputsUnlocked(kids, false, tx.lockTime, h);
    if Inputs(kids, true) != [] {
      InputsUnlocked(kids, true, tx.lockTime, h);
    }
  }
}
