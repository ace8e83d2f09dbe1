/**
 The Soroban value type `xdr.ScVal`.  Every arm the Go type holds behind a
 pointer is an Option (None is the nil pointer); a vector or map arm is a
 pointer to a pointer, so it has three forms.
 */
module Xdr {
  import opened Wrappers
  import opened Words

  type Hash32 = s: seq<byte> | |s| == 32 witness FromNat(0, 32)

  datatype Int128Parts = Int128Parts(hi: int64, lo: uint64)
  datatype UInt128Parts = UInt128Parts(hi: uint64, lo: uint64)
  datatype Int256Parts = Int256Parts(hiHi: int64, hiLo: uint64, loHi: uint64, loLo: uint64)
  datatype UInt256Parts = UInt256Parts(hiHi: uint64, hiLo: uint64, loHi: uint64, loLo: uint64)

  datatype ScAddress =
    | AccountAddress(accountId: Option<Hash32>)
    | ContractAddress(contractId: Option<Hash32>)
    | MuxedAccountAddress(muxed: Option<(uint64, Hash32)>)
    | ClaimableBalanceAddress(balanceId: Option<Hash32>)
    | LiquidityPoolAddress(poolId: Option<Hash32>)
    | MuxedContractAddress

  datatype ScVal =
    | ScvBool(b: Option<bool>)
    | ScvVoid
    | ScvU32(u32: Option<uint32>)
    | ScvI32(i32: Option<int32>)
    | ScvU64(u64: Option<uint64>)
    | ScvI64(i64: Option<int64>)
    | ScvTimepoint(timepoint: Option<uint64>)
    | ScvDuration(duration: Option<uint64>)
    | ScvU128(u128: Option<UInt128Parts>)
    | ScvI128(i128: Option<Int128Parts>)
    | ScvU256(u256: Option<UInt256Parts>)
    | ScvI256(i256: Option<Int256Parts>)
    | ScvBytes(bytes: Option<seq<byte>>)
    | ScvString(str: Option<string>)
    | ScvSymbol(sym: Option<string>)
    | ScvVec(vec: VecArm)
    | ScvMap(entries: MapArm)
    | ScvAddress(address: Option<ScAddress>)
    // Ledger-only variants, and the types this program does not know.
    | ScvError(error: Option<ScError>)
    | ScvContractInstance(instance: InstanceArm)
    | ScvLedgerKeyContractInstance
    | ScvLedgerKeyNonce(nonce: Option<int64>)
    | ScvUnknown(tag: nat)

  datatype VecArm = NilVec | NullVec | Items(items: seq<ScVal>)
  datatype MapArm = NilMap | NullMap | Entries(entries: seq<MapEntry>)
  datatype MapEntry = MapEntry(key: ScVal, val: ScVal)

  // Error types 0 (contract) to 9 are known; a contract error carries its own code.
  datatype ScError = ScError(kind: nat, contractCode: Option<uint32>, code: Option<int32>)

  datatype InstanceArm = NilInstance | Instance(executable: Executable, storage: StorageArm)
  datatype Executable = Wasm(hash: Option<Hash32>) | StellarAsset | UnknownExecutable(tag: nat)
  datatype StorageArm = NoStorage | Storage(stored: seq<MapEntry>)
}
