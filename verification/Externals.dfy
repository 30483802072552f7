/**
 * What the chain takes from outside this model: the SHA-256 digest (FIPS 180-4), Ed25519
 * verification (section 5.1.7 of RFC 8032), the account-address syntax check, and the bank's
 * list of recipients that may not receive coins.  Every theorem holds for any choice of them.
 */
module Externals {
  import opened Numbers

  datatype Env = Env(
    sha256: seq<byte> -> seq<byte>,
    verify: (seq<byte>, string, seq<byte>) -> bool,
    validAddress: string -> bool,
    blocked: string -> bool)

  const PUBLIC_KEY_SIZE := 32
  const SIGNATURE_SIZE := 64
}
