/** The collaborators of app/security.py and python-jose that the core calls
    but whose code is not part of this model: password hashing and checking,
    token issue, and token decoding. They are carried as function values, so
    every property below holds whichever functions they are; the properties
    that need them to behave are stated as explicit hypotheses. */
module Security {
  import opened Common

  datatype Primitives = Primitives(
    /** `get_password_hash(plain)` */
    hash: string -> string,
    /** `verify_password(plain, hashed)` */
    verify: (string, string) -> bool,
    /** `create_access_token({"sub": subject})` */
    issue: string -> string,
    /** `jwt.decode(token, SECRET_KEY, ...)` then `payload.get("sub")`:
        `None` is a `JWTError` (bad signature, malformed, expired),
        `Some(None)` a valid token without a subject claim. */
    decode: string -> Option<Option<string>>)

  /** A freshly issued token is non-empty and decodes to the subject it was
      issued for. */
  ghost predicate TokensRoundTrip(p: Primitives) {
    forall subject :: p.issue(subject) != "" && p.decode(p.issue(subject)) == Some(Some(subject))
  }

  /** A password verifies against its own hash. */
  ghost predicate HashVerifies(p: Primitives) {
    forall password :: p.verify(password, p.hash(password))
  }
}
