/** Transaction groups, and the cryptography the contracts call, which stays uninterpreted. */
module Transactions {
  import opened Teal

  datatype TxnType = Payment | AssetTransfer | ApplicationCall | OtherType

  datatype OnComplete = NoOp | OptIn | UpdateApplication | DeleteApplication | OtherCompletion

  const ZERO_ADDRESS: bytes := Zeros(32)

  /** The fields the programs look at. `amount`, `receiver` and `asset` describe a payment or
      an asset transfer; `accounts` holds the foreign accounts of an application call. */
  datatype Txn = Txn(
    kind: TxnType, sender: bytes, rekeyTo: bytes, closeTo: bytes, assetCloseTo: bytes, fee: uint64,
    appId: uint64, onCompletion: OnComplete, accounts: seq<bytes>, args: seq<bytes>,
    receiver: bytes, amount: uint64, asset: uint64)
  {
    function Arg(i: nat): Option<bytes> {
      if i < |args| then Some(args[i]) else None
    }

    /** Account 0 is the sender. */
    function Account(i: nat): Option<bytes> {
      if i == 0 then Some(sender)
      else if i <= |accounts| then Some(accounts[i - 1])
      else None
    }

    predicate Calls(app: uint64) {
      kind == ApplicationCall && appId == app
    }
  }

  type Group = seq<Txn>

  /** Keccak-256, and secp256k1 public-key recovery, which rejects some inputs. */
  datatype Crypto = Crypto(
    keccak: bytes -> bytes,
    recover: (bytes, nat, bytes, bytes) -> Option<(bytes, bytes)>)

  // ---------- method names and other literals ----------

  /** "guardian" */
  const GUARDIAN: bytes := [103, 117, 97, 114, 100, 105, 97, 110]

  /** "duplicate" */
  const DUPLICATE: bytes := [100, 117, 112, 108, 105, 99, 97, 116, 101]

  /** "publishMessage" */
  const PUBLISH_MESSAGE: bytes := [112, 117, 98, 108, 105, 115, 104, 77, 101, 115, 115, 97, 103, 101]

  /** "verifySigs" */
  const VERIFY_SIGS: bytes := [118, 101, 114, 105, 102, 121, 83, 105, 103, 115]

  /** "verifyVAA" */
  const VERIFY_VAA: bytes := [118, 101, 114, 105, 102, 121, 86, 65, 65]

  /** "governance" */
  const GOVERNANCE: bytes := [103, 111, 118, 101, 114, 110, 97, 110, 99, 101]

  /** "init" */
  const INIT: bytes := [105, 110, 105, 116]

  /** "nop" */
  const NOP: bytes := [110, 111, 112]
}
