/** Machine words, addresses and hashes shared by every module. */
module Primitives {

  const TWO_31: int := 0x8000_0000
  const TWO_32: int := 0x1_0000_0000
  const TWO_64: int := 0x1_0000_0000_0000_0000
  const TWO_256: int := 0x1_0000_0000_0000_0000_0000_0000_0000_0000_0000_0000_0000_0000_0000_0000_0000_0000
  const I64_MAX: int := 0x7FFF_FFFF_FFFF_FFFF

  type Byte = x: int | 0 <= x < 0x100
  type U64 = x: int | 0 <= x < TWO_64
  type U256 = x: int | 0 <= x < TWO_256

  /** A 20-byte account address, read as a number. */
  type Address = x: int | 0 <= x < 0x1_0000_0000_0000_0000_0000_0000_0000_0000_0000_0000

  type Bytecode = seq<Byte>

  /** A 32-byte hash. Keccak is a free constructor, so it has no collisions. */
  datatype Hash = Zero | Keccak(preimage: Bytecode) | Other(id: nat)

  const EMPTY_CODE_HASH: Hash := Keccak([])

  /** Neither the zero hash nor the hash of the empty bytecode. */
  predicate HasCode(hash: Hash) {
    hash != Zero && hash != EMPTY_CODE_HASH
  }

  datatype Option<+T> = None | Some(value: T) {
    function GetOr(default: T): T {
      match this
      case Some(v) => v
      case None => default
    }
  }

  function Min(a: int, b: int): int {
    if a < b then a else b
  }

  /** Unsigned subtraction that stops at zero. */
  function SaturatingSub(a: nat, b: nat): nat {
    if a < b then 0 else a - b
  }
}
