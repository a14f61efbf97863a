/** Values that several components share. */
module Chain {

  datatype Option<+T> = None | Some(value: T)

  type byte = x: int | 0 <= x < 256

  /** An output of a transaction; in the store an outpoint also names a channel. */
  datatype OutPoint = OutPoint(hash: seq<byte>, index: nat)

  datatype TxIn = TxIn(prev: OutPoint, sequence: nat)

  /** A sweep: several inputs, one output. Witness data is left out, the output script is a fresh wallet script. */
  datatype Tx = Tx(inputs: seq<TxIn>, value: int, script: seq<byte>, lockTime: nat)

  datatype TxOut = TxOut(value: int, script: seq<byte>)

  /** How to sign for an output; the key and the tweaks stay as the bytes they are stored as. */
  datatype SignDesc = SignDesc(
    family: nat,
    index: nat,
    pubKey: Option<seq<byte>>,
    singleTweak: seq<byte>,
    doubleTweak: seq<byte>,
    witnessScript: seq<byte>,
    output: TxOut,
    hashType: nat)

  function Prevouts(tx: Tx): set<OutPoint> {
    set i | 0 <= i < |tx.inputs| :: tx.inputs[i].prev
  }

  predicate Spends(tx: Tx, op: OutPoint) {
    op in Prevouts(tx)
  }

  const MAX_SATOSHI: int := 2_100_000_000_000_000

  /** The part of btcd's CheckTransactionSanity that a sweep can fail. */
  predicate Sane(tx: Tx) {
    && tx.inputs != []
    && 0 <= tx.value <= MAX_SATOSHI
    && forall i, j :: 0 <= i < j < |tx.inputs| ==> tx.inputs[i].prev != tx.inputs[j].prev
  }

  /** No input is spent twice. */
  predicate NoDoubleInput(tx: Tx) {
    forall i, j :: 0 <= i < j < |tx.inputs| ==> tx.inputs[i].prev != tx.inputs[j].prev
  }

  /** Witness types by their codes in lnwallet. */
  type WitnessType = nat
  const CommitmentTimeLock: WitnessType := 0
  const CommitmentNoDelay: WitnessType := 1
  const CommitmentRevoke: WitnessType := 2
  const HtlcOfferedRevoke: WitnessType := 3
  const HtlcAcceptedRevoke: WitnessType := 4
  const HtlcOfferedTimeoutSecondLevel: WitnessType := 5
  const HtlcAcceptedSuccessSecondLevel: WitnessType := 6
  const HtlcOfferedRemoteTimeout: WitnessType := 7
  const HtlcSecondLevelRevoke: WitnessType := 9
}
