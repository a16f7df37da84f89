/** A deterministic polynomial digest used as the stand-in for the cryptographic
    primitives (bcrypt's password hash and the HMAC that signs tokens).
    Only its being a deterministic function of its input matters to the
    model; no security property of it is stated or relied on. */
module Digest {

  const Modulus: nat := 0x1_0000_0000_0000_0000_0000_0000_0000_0000

  /** A polynomial fingerprint of `s`, reduced modulo `Modulus`. */
  function Fingerprint(s: string): (d: nat)
    ensures d < Modulus
    decreases |s|
  {
    if s == [] then 0
    else (Fingerprint(s[..|s| - 1]) * 257 + s[|s| - 1] as int) % Modulus
  }
}
