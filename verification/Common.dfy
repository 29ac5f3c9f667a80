/** Small vocabulary the modules share. */
module Common {
  datatype Option<T> = None | Some(value: T)

  type byte = x: nat | x < 256

  const U32: nat := 0x1_0000_0000
}

/** Slots of the proof-of-capacity chain: uint64 numbers of three seconds each. */
module PocSlots {
  const U64: nat := 0x1_0000_0000_0000_0000

  const POC_SLOT: nat := 3

  type Slot = x: nat | x < U64
}
