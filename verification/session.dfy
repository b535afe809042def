/** The framework session as far as authentication uses it: the signed-in
    user, the session identifier and the CSRF token. Fresh identifiers and
    tokens are drawn from a counter, so each new one differs from every one
    issued before. */
module Session {
  import opened Request

  class Session {
    /** The identifier of the authenticated user, if any. */
    var userId: Option<nat>
    var id: nat
    /** The CSRF token; flushing the session removes it. */
    var token: Option<nat>
    /** Every identifier and token issued so far is below this bound. */
    var nextSecret: nat

    ghost predicate Valid()
      reads this
    {
      id < nextSecret && (token.Some? ==> token.value < nextSecret)
    }

    constructor ()
      ensures Valid() && userId == None
    {
      userId := None;
      id := 0;
      token := Some(1);
      nextSecret := 2;
    }

    /** `migrate`: a new identifier, the data kept. */
    method Migrate()
      requires Valid()
      modifies this
      ensures Valid()
      ensures id == old(nextSecret) && nextSecret == old(nextSecret) + 1
      ensures userId == old(userId) && token == old(token)
    {
      id := nextSecret;
      nextSecret := nextSecret + 1;
    }

    /** `regenerateToken`: a new CSRF token. */
    method RegenerateToken()
      requires Valid()
      modifies this
      ensures Valid()
      ensures token == Some(old(nextSecret)) && nextSecret == old(nextSecret) + 1
      ensures userId == old(userId) && id == old(id)
    {
      token := Some(nextSecret);
      nextSecret := nextSecret + 1;
    }

    /** `flush`: every attribute removed, the user and the token included. */
    method Flush()
      requires Valid()
      modifies this
      ensures Valid()
      ensures userId == None && token == None
      ensures id == old(id) && nextSecret == old(nextSecret)
    {
      userId := None;
      token := None;
    }
  }
}
