/**
 * bcrypt and JSON Web Tokens as ideal oracles. A digest determines the
 * secret it was made from (salt and cost are not modelled); a token carries
 * the claims it was signed with (id, email, role), and only a token the
 * server signed verifies. Expiry after 24 hours is not modelled.
 */
module Credentials {
  import opened Wrappers

  /** The output of bcrypt.hash(secret, 10). */
  datatype Digest = Digest(secret: string)

  function Hash(secret: string): Digest {
    Digest(secret)
  }

  /** bcrypt.compare(candidate, digest). */
  predicate Matches(candidate: string, digest: Digest) {
    digest.secret == candidate
  }

  /** A password verifies against a stored hash exactly when it is the hashed password. */
  lemma MatchesHash(candidate: string, secret: string)
    ensures Matches(candidate, Hash(secret)) <==> candidate == secret
  {
  }

  /** The payload of generateToken: the user's id, email and role. */
  datatype Claims = Claims(id: int, email: string, role: string)

  /** A bearer token: signed by the server, or anything else a client sends. */
  datatype Token = Signed(claims: Claims) | Forged(text: string)

  function Sign(c: Claims): Token {
    Signed(c)
  }

  /** verifyToken: the claims of a token the server signed, nothing for any other. */
  function VerifyToken(t: Token): (r: Option<Claims>)
    ensures r.Some? <==> t.Signed?
  {
    if t.Signed? then Some(t.claims) else None
  }

  /** The claims of a signed token come back unchanged. */
  lemma TokenRoundTrip(c: Claims)
    ensures VerifyToken(Sign(c)) == Some(c)
  {
  }

  /** Two tokens that verify to different claims are different tokens. */
  lemma SignInjective(c: Claims, d: Claims)
    requires c != d
    ensures Sign(c) != Sign(d)
  {
  }
}
