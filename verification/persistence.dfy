/** The database client the routes share: the two tables, updated in place by
    the create, update and delete calls. A call that would break a unique
    index or the foreign key, or that names a missing row, fails and changes
    nothing. */
module Persistence {
  import opened Records

  class Database {
    var users: seq<User>
    var authenticators: seq<Authenticator>

    constructor ()
      ensures users == [] && authenticators == []
    {
      users := [];
      authenticators := [];
    }

    /** The current contents of both tables. */
    function Snapshot(): Store
      reads this
    {
      Store(users, authenticators)
    }

    /** `user.create` */
    method CreateUser(u: User) returns (ok: bool)
      modifies this
      ensures ok == CanCreateUser(old(Snapshot()), u)
      ensures users == if ok then old(users) + [u] else old(users)
      ensures authenticators == old(authenticators)
    {
      ok := !IdTaken(users, u.id) && !EmailTaken(users, u.email);
      if ok {
        users := users + [u];
      }
    }

    /** `authenticator.create` */
    method CreateAuthenticator(a: Authenticator) returns (ok: bool)
      modifies this
      ensures ok == CanCreateAuthenticator(old(Snapshot()), a)
      ensures authenticators == if ok then old(authenticators) + [a] else old(authenticators)
      ensures users == old(users)
    {
      ok := !CredentialTaken(authenticators, a.credentialID) && IdTaken(users, a.userId);
      if ok {
        authenticators := authenticators + [a];
      }
    }

    /** `authenticator.update` of the counter */
    method UpdateCounter(credentialID: string, counter: nat) returns (ok: bool)
      modifies this
      ensures ok == CredentialTaken(old(authenticators), credentialID)
      ensures authenticators == if ok then WithCounter(old(authenticators), credentialID, counter) else old(authenticators)
      ensures users == old(users)
    {
      ok := CredentialTaken(authenticators, credentialID);
      if ok {
        authenticators := WithCounter(authenticators, credentialID, counter);
      }
    }

    /** `authenticator.delete` */
    method DeleteAuthenticator(credentialID: string) returns (ok: bool)
      modifies this
      ensures ok == CredentialTaken(old(authenticators), credentialID)
      ensures authenticators == if ok then Without(old(authenticators), credentialID) else old(authenticators)
      ensures users == old(users)
    {
      ok := CredentialTaken(authenticators, credentialID);
      if ok {
        authenticators := Without(authenticators, credentialID);
      }
    }
  }
}
