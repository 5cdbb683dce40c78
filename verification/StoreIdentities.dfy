/**
 Peer identities of the persistent stores (persistent_store_recovery.hpp, lines 17-40).
 */
module StoreIdentities {

  type byte = n: nat | n < 256

  type Address = s: seq<byte> | |s| == 6 witness [0, 0, 0, 0, 0, 0]

  datatype Identity = Identity(kind: byte, value: Address)

  /** Type 0 or 1, and not the all-zero public address. */
  predicate ValidIdentity(id: Identity) {
    id.kind == 1 || (id.kind == 0 && id.value != [0, 0, 0, 0, 0, 0])
  }

  /** The identity stored at `at` in a record. */
  function IdentityAt(bytes: seq<byte>, at: nat): Identity
    requires at + 7 <= |bytes|
  {
    Identity(bytes[at], bytes[at + 1..at + 7])
  }
}
