/** The cryptographic collaborators of the auth core, left uninterpreted: bcrypt's
    `hash` and `compare`, and the JWT service's `signAsync` and `verify`, each with
    the process-wide secret (and, for hashing, the fresh salt) already applied. */
module Crypto {
  import opened Common

  /** The identity payload the services sign and the guard reads back. */
  datatype Claims = Claims(id: int, email: Option<string>, username: Option<string>)

  /** bcrypt: `hash(plain)` and `compare(plain, digest)`. */
  datatype Hasher = Hasher(hash: string -> string, compare: (string, string) -> bool)

  /** `signAsync(claims, {secret})`. */
  datatype Signer = Signer(sign: Claims -> string)

  /** `verify(token, {secret})`: the claims of a well-formed, correctly signed,
      unexpired token, and `None` when verification throws. */
  type Verifier = string -> Option<Claims>

  /** A hasher whose comparison accepts the password a digest was made from. */
  ghost predicate Sound(h: Hasher) {
    forall p :: h.compare(p, h.hash(p))
  }
}
