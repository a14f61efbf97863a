/** Sums of amounts over sets of outputs. */
module NurserySums {
  import opened NurseryLedger

  ghost function Sum(ids: set<Id>, w: Id -> int): int {
    if ids == {} then 0 else
      var id :| id in ids;
      w(id) + Sum(ids - {id}, w)
  }

  /** The order of summation does not matter. */
  lemma {:induction false} SumTake(ids: set<Id>, w: Id -> int, id: Id)
    requires id in ids
    ensures Sum(ids, w) == w(id) + Sum(ids - {id}, w)
    decreases |ids|
  {
    var x :| x in ids && Sum(ids, w) == w(x) + Sum(ids - {x}, w);
    if x != id {
      SumTake(ids - {x}, w, id);
      SumTake(ids - {id}, w, x);
      assert ids - {x} - {id} == ids - {id} - {x};
    }
  }

  /** If weights differ on `moved` only, by what `d` says, so do the sums. */
  lemma {:induction false} SumChange(ids: set<Id>, v: Id -> int, w: Id -> int, moved: set<Id>, d: Id -> int)
    requires moved <= ids
    requires forall id <- ids :: w(id) == v(id) + if id in moved then d(id) else 0
    ensures Sum(ids, w) == Sum(ids, v) + Sum(moved, d)
    decreases |ids|
  {
    if ids != {} {
      var x :| x in ids;
      SumTake(ids, v, x);
      SumTake(ids, w, x);
      SumChange(ids - {x}, v, w, moved - {x}, d);
      if x in moved {
        SumTake(moved, d, x);
      } else {
        assert moved - {x} == moved;
      }
    }
  }

  lemma SumSame(ids: set<Id>, v: Id -> int, w: Id -> int)
    requires forall id <- ids :: w(id) == v(id)
    ensures Sum(ids, w) == Sum(ids, v)
  {
    SumChange(ids, v, w, {}, v);
  }

  function Amount(l: Ledger): Id -> int {
    id => if id in l.stages then KidOf(l.stages[id]).amount else 0
  }

  function Negated(w: Id -> int): Id -> int {
    id => -w(id)
  }

  lemma {:induction false} SumZero(ids: set<Id>, zero: Id -> int)
    requires forall id :: zero(id) == 0
    ensures Sum(ids, zero) == 0
    decreases |ids|
  {
    if ids != {} {
      var x :| x in ids;
      SumTake(ids, zero, x);
      SumZero(ids - {x}, zero);
    }
  }

  lemma {:induction false} SumUnion(xs: set<Id>, ys: set<Id>, w: Id -> int)
    requires xs !! ys
    ensures Sum(xs + ys, w) == Sum(xs, w) + Sum(ys, w)
    decreases |xs|
  {
    if xs == {} {
      assert xs + ys == ys;
    } else {
      var x :| x in xs;
      SumTake(xs, w, x);
      SumTake(xs + ys, w, x);
      assert xs + ys - {x} == (xs - {x}) + ys;
      SumUnion(xs - {x}, ys, w);
    }
  }

  lemma {:induction false} SumNegated(ids: set<Id>, w: Id -> int)
    ensures Sum(ids, Negated(w)) == -Sum(ids, w)
    decreases |ids|
  {
    if ids != {} {
      var x :| x in ids;
      SumTake(ids, w, x);
      SumTake(ids, Negated(w), x);
      SumNegated(ids - {x}, w);
    }
  }

  /** The outputs of a class that a sweep is able to spend. */
  ghost function Sweepable(l: Ledger, h: nat): set<Id> {
    set id | id in l.stages && KndrAt(l, id, h) && Known(l.stages[id].kid.witnessType)
  }
}
