/**
 * Stand-ins for the two security libraries the handlers call: werkzeug's
 * salted password hashing and flask_jwt_extended's access tokens. Their
 * internals are outside the model; each is reduced to the one property the
 * handlers depend on.
 */
module Security {
  import opened Wrappers

  /**
   * A salted password hash, kept symbolic: it records the salt and the
   * password it was computed from, and nothing but `CheckPasswordHash` looks
   * at the password. The salt, random in werkzeug, is a parameter here.
   */
  datatype PasswordHash = PasswordHash(salt: nat, preimage: string)

  /** werkzeug's `generate_password_hash(password)` with the salt it drew. */
  function GeneratePasswordHash(password: string, salt: nat): (h: PasswordHash)
    ensures h.salt == salt
  {
    PasswordHash(salt, password)
  }

  /** werkzeug's `check_password_hash(h, password)`. */
  function CheckPasswordHash(h: PasswordHash, password: string): bool {
    GeneratePasswordHash(password, h.salt) == h
  }

  /**
   * The one axiom of the hash pair: a hash verifies the password it was
   * generated from, whatever the salt, and (an idealised hash without
   * collisions) no other password.
   */
  lemma CheckGeneratedHash(password: string, attempt: string, salt: nat)
    ensures CheckPasswordHash(GeneratePasswordHash(password, salt), attempt) <==> attempt == password
  {
  }

  /**
   * The claims of a signed access token: the identity (`sub`) and the
   * additional `rol` claim. Signing and expiry are the library's business;
   * a request that reaches a handler carries claims that verified.
   */
  datatype Claims = Claims(identity: string, rol: Json<string>)

  /** `create_access_token(identity=..., additional_claims={'rol': rol})`. */
  function CreateAccessToken(identity: string, rol: Option<string>): (c: Claims)
    ensures c.identity == identity
    ensures c.rol != Absent
    ensures c.rol.Present? <==> rol.Some?
    ensures rol.Some? ==> c.rol.value == rol.value
  {
    Claims(identity, if rol.Some? then Present(rol.value) else Null)
  }
}
