/** Vocabulary shared by the models of the kernel's components. */
module Common {

  type Byte = b: nat | b < 256

  datatype Option<+T> = None | Some(value: T)

  /** The members of `Error::Code` that the modelled functions return. */
  datatype Error =
    | Success
    | NoEnoughMemory
    | IndexOutOfRange
    | AlreadyAllocated
    | InvalidPhase
    | InvalidSlotID
    | NoSuchTask
    | NoSuchEntry
    | IsDirectory
    | TransferFailed
    | UnknownXHCISpeedID

  function Min(a: int, b: int): int {
    if a <= b then a else b
  }

  function Max(a: int, b: int): int {
    if a >= b then a else b
  }

  function Concat(pieces: seq<seq<Byte>>): seq<Byte> {
    if pieces == [] then [] else Concat(pieces[..|pieces| - 1]) + pieces[|pieces| - 1]
  }

  lemma ConcatAppend(pieces: seq<seq<Byte>>, piece: seq<Byte>)
    ensures Concat(pieces + [piece]) == Concat(pieces) + piece
  {
    assert (pieces + [piece])[..|pieces|] == pieces;
  }
}
