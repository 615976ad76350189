/** The two tables of the store, `User` and `Authenticator`, their unique
    indexes, and the queries and updates the route handlers issue against them. */
module Records {
  import opened Values

  /** A user: password sign-up stores a password hash; passkey sign-up stores none. */
  datatype User = User(id: string, email: string, password: Option<string>)

  /** A registered passkey; `transports` holds the transport hints joined with `,`. */
  datatype Authenticator = Authenticator(
    credentialID: string,
    credentialPublicKey: seq<bv8>,
    counter: nat,
    credentialDeviceType: string,
    credentialBackedUp: bool,
    transports: Option<string>,
    userId: string)

  /** The rows of both tables, each in insertion order. */
  datatype Store = Store(users: seq<User>, authenticators: seq<Authenticator>)

  predicate IdTaken(users: seq<User>, id: string) {
    exists u :: u in users && u.id == id
  }

  predicate EmailTaken(users: seq<User>, email: string) {
    exists u :: u in users && u.email == email
  }

  predicate CredentialTaken(auths: seq<Authenticator>, credentialID: string) {
    exists a :: a in auths && a.credentialID == credentialID
  }

  ghost predicate UniqueUserIds(users: seq<User>) {
    forall i, j :: 0 <= i < j < |users| ==> users[i].id != users[j].id
  }

  ghost predicate UniqueEmails(users: seq<User>) {
    forall i, j :: 0 <= i < j < |users| ==> users[i].email != users[j].email
  }

  ghost predicate UniqueCredentials(auths: seq<Authenticator>) {
    forall i, j :: 0 <= i < j < |auths| ==> auths[i].credentialID != auths[j].credentialID
  }

  /** Every authenticator belongs to a stored user (the foreign key on `userId`). */
  ghost predicate OwnersExist(st: Store) {
    forall a :: a in st.authenticators ==> IdTaken(st.users, a.userId)
  }

  /** The constraints the schema enforces: unique `User.id`, unique `User.email`,
      unique `Authenticator.credentialID`, and the `userId` foreign key. */
  ghost predicate Valid(st: Store) {
    UniqueUserIds(st.users) && UniqueEmails(st.users) &&
    UniqueCredentials(st.authenticators) && OwnersExist(st)
  }

  /** `user.create` succeeds unless it would break a unique index. */
  predicate CanCreateUser(st: Store, u: User) {
    !IdTaken(st.users, u.id) && !EmailTaken(st.users, u.email)
  }

  /** `authenticator.create` succeeds unless the credential id is taken or the
      owner does not exist. */
  predicate CanCreateAuthenticator(st: Store, a: Authenticator) {
    !CredentialTaken(st.authenticators, a.credentialID) && IdTaken(st.users, a.userId)
  }

  /** `user.findUnique({ where: { email } })`. */
  function FindUserByEmail(users: seq<User>, email: string): (r: Option<User>)
    ensures r.Some? <==> EmailTaken(users, email)
    ensures r.Some? ==> r.value in users && r.value.email == email
  {
    if |users| == 0 then None
    else if users[0].email == email then Some(users[0])
    else
      assert forall u :: u in users && u != users[0] ==> u in users[1..];
      FindUserByEmail(users[1..], email)
  }

  /** `user.findUnique({ where: { id } })`. */
  function FindUserById(users: seq<User>, id: string): (r: Option<User>)
    ensures r.Some? <==> IdTaken(users, id)
    ensures r.Some? ==> r.value in users && r.value.id == id
  {
    if |users| == 0 then None
    else if users[0].id == id then Some(users[0])
    else
      assert forall u :: u in users && u != users[0] ==> u in users[1..];
      FindUserById(users[1..], id)
  }

  /** `authenticator.findUnique({ where: { credentialID } })`. */
  function FindAuthenticator(auths: seq<Authenticator>, credentialID: string): (r: Option<Authenticator>)
    ensures r.Some? <==> CredentialTaken(auths, credentialID)
    ensures r.Some? ==> r.value in auths && r.value.credentialID == credentialID
  {
    if |auths| == 0 then None
    else if auths[0].credentialID == credentialID then Some(auths[0])
    else
      assert forall a :: a in auths && a != auths[0] ==> a in auths[1..];
      FindAuthenticator(auths[1..], credentialID)
  }

  /** The `authenticators` relation of a user, in store order. */
  function AuthenticatorsOf(auths: seq<Authenticator>, userId: string): (r: seq<Authenticator>)
    ensures |r| <= |auths|
    ensures forall a :: a in r <==> a in auths && a.userId == userId
  {
    if |auths| == 0 then []
    else
      assert forall a :: a in auths && a != auths[0] ==> a in auths[1..];
      var rest := AuthenticatorsOf(auths[1..], userId);
      if auths[0].userId == userId then [auths[0]] + rest else rest
  }

  /** `authenticator.update({ where: { credentialID }, data: { counter } })`. */
  function WithCounter(auths: seq<Authenticator>, credentialID: string, counter: nat): (r: seq<Authenticator>)
    ensures |r| == |auths|
    ensures forall i :: 0 <= i < |auths| ==>
      r[i] == if auths[i].credentialID == credentialID then auths[i].(counter := counter) else auths[i]
  {
    if |auths| == 0 then []
    else
      var first := if auths[0].credentialID == credentialID then auths[0].(counter := counter) else auths[0];
      [first] + WithCounter(auths[1..], credentialID, counter)
  }

  /** `authenticator.delete({ where: { credentialID } })`. */
  function Without(auths: seq<Authenticator>, credentialID: string): (r: seq<Authenticator>)
    ensures |r| <= |auths|
    ensures forall a :: a in r <==> a in auths && a.credentialID != credentialID
  {
    if |auths| == 0 then []
    else
      assert forall a :: a in auths && a != auths[0] ==> a in auths[1..];
      var rest := Without(auths[1..], credentialID);
      if auths[0].credentialID == credentialID then rest else [auths[0]] + rest
  }

  /** With unique emails, the lookup by email finds the one user who has it. */
  lemma {:induction false} FindUserByEmailUnique(users: seq<User>, u: User)
    requires UniqueEmails(users) && u in users
    ensures FindUserByEmail(users, u.email) == Some(u)
  {
    if users[0] != u {
      assert users[0].email != u.email by {
        var j :| 0 <= j < |users| && users[j] == u;
        assert j != 0;
      }
      assert u in users[1..];
      FindUserByEmailUnique(users[1..], u);
    }
  }

  /** With unique ids, the lookup by id finds the one user who has it. */
  lemma {:induction false} FindUserByIdUnique(users: seq<User>, u: User)
    requires UniqueUserIds(users) && u in users
    ensures FindUserById(users, u.id) == Some(u)
  {
    if users[0] != u {
      assert users[0].id != u.id by {
        var j :| 0 <= j < |users| && users[j] == u;
        assert j != 0;
      }
      assert u in users[1..];
      FindUserByIdUnique(users[1..], u);
    }
  }

  /** With unique credential ids, the lookup finds the one authenticator that has it. */
  lemma {:induction false} FindAuthenticatorUnique(auths: seq<Authenticator>, a: Authenticator)
    requires UniqueCredentials(auths) && a in auths
    ensures FindAuthenticator(auths, a.credentialID) == Some(a)
  {
    if auths[0] != a {
      assert auths[0].credentialID != a.credentialID by {
        var j :| 0 <= j < |auths| && auths[j] == a;
        assert j != 0;
      }
      assert a in auths[1..];
      FindAuthenticatorUnique(auths[1..], a);
    }
  }

  /** Uniqueness of credential ids, one row at a time. */
  lemma UniqueCredentialsCons(x: Authenticator, s: seq<Authenticator>)
    ensures UniqueCredentials([x] + s) <==>
      (forall b :: b in s ==> b.credentialID != x.credentialID) && UniqueCredentials(s)
  {
    var t := [x] + s;
    assert forall k :: 0 <= k < |s| ==> t[k + 1] == s[k];
    if UniqueCredentials(t) {
      forall b | b in s ensures b.credentialID != x.credentialID {
        var k :| 0 <= k < |s| && s[k] == b;
        assert t[0] == x && t[k + 1] == b;
      }
    }
  }

  /** Creating a user that passes the unique checks keeps the store valid. */
  lemma CreateUserPreservesValid(st: Store, u: User)
    requires Valid(st) && CanCreateUser(st, u)
    ensures Valid(st.(users := st.users + [u]))
  {
    var users := st.users + [u];
    forall i, j | 0 <= i < j < |users|
      ensures users[i].id != users[j].id && users[i].email != users[j].email
    {
      if j == |st.users| {
        assert users[i] in st.users;
      }
    }
  }

  /** Creating an authenticator that passes the unique and foreign-key checks
      keeps the store valid. */
  lemma CreateAuthenticatorPreservesValid(st: Store, a: Authenticator)
    requires Valid(st) && CanCreateAuthenticator(st, a)
    ensures Valid(st.(authenticators := st.authenticators + [a]))
  {
    var auths := st.authenticators + [a];
    forall i, j | 0 <= i < j < |auths|
      ensures auths[i].credentialID != auths[j].credentialID
    {
      if j == |st.authenticators| {
        assert auths[i] in st.authenticators;
      }
    }
  }

  /** In a valid store, a user insert passes the unique checks exactly when the
      store with the new row still satisfies the schema's constraints. */
  lemma CanCreateUserKeepsSchema(st: Store, u: User)
    requires Valid(st)
    ensures CanCreateUser(st, u) <==> Valid(st.(users := st.users + [u]))
  {
    var users := st.users + [u];
    if CanCreateUser(st, u) {
      CreateUserPreservesValid(st, u);
    } else if IdTaken(st.users, u.id) {
      var v :| v in st.users && v.id == u.id;
      var i :| 0 <= i < |st.users| && st.users[i] == v;
      assert users[i].id == users[|st.users|].id;
    } else {
      var v :| v in st.users && v.email == u.email;
      var i :| 0 <= i < |st.users| && st.users[i] == v;
      assert users[i].email == users[|st.users|].email;
    }
  }

  /** In a valid store, an authenticator insert passes the unique and
      foreign-key checks exactly when the store with the new row still
      satisfies the schema's constraints. */
  lemma CanCreateAuthenticatorKeepsSchema(st: Store, a: Authenticator)
    requires Valid(st)
    ensures CanCreateAuthenticator(st, a) <==> Valid(st.(authenticators := st.authenticators + [a]))
  {
    var auths := st.authenticators + [a];
    if CanCreateAuthenticator(st, a) {
      CreateAuthenticatorPreservesValid(st, a);
    } else if CredentialTaken(st.authenticators, a.credentialID) {
      var b :| b in st.authenticators && b.credentialID == a.credentialID;
      var i :| 0 <= i < |st.authenticators| && st.authenticators[i] == b;
      assert auths[i].credentialID == auths[|st.authenticators|].credentialID;
    } else {
      assert a in auths;
    }
  }

  /** Updating a counter keeps the store valid. */
  lemma WithCounterPreservesValid(st: Store, credentialID: string, counter: nat)
    requires Valid(st)
    ensures Valid(st.(authenticators := WithCounter(st.authenticators, credentialID, counter)))
  {
    var auths := WithCounter(st.authenticators, credentialID, counter);
    forall b | b in auths ensures IdTaken(st.users, b.userId) {
      var k :| 0 <= k < |auths| && auths[k] == b;
      assert st.authenticators[k] in st.authenticators;
    }
  }

  /** Deleting by credential id keeps credential ids unique. */
  lemma {:induction false} WithoutUnique(auths: seq<Authenticator>, credentialID: string)
    requires UniqueCredentials(auths)
    ensures UniqueCredentials(Without(auths, credentialID))
  {
    if |auths| > 0 {
      assert auths == [auths[0]] + auths[1..];
      UniqueCredentialsCons(auths[0], auths[1..]);
      WithoutUnique(auths[1..], credentialID);
      if auths[0].credentialID != credentialID {
        UniqueCredentialsCons(auths[0], Without(auths[1..], credentialID));
      }
    }
  }

  /** Deleting an authenticator keeps the store valid. */
  lemma WithoutPreservesValid(st: Store, credentialID: string)
    requires Valid(st)
    ensures Valid(st.(authenticators := Without(st.authenticators, credentialID)))
  {
    WithoutUnique(st.authenticators, credentialID);
  }

  /** With unique credential ids, deleting a stored credential removes exactly one row. */
  lemma {:induction false} WithoutRemovesOne(auths: seq<Authenticator>, credentialID: string)
    requires UniqueCredentials(auths) && CredentialTaken(auths, credentialID)
    ensures |Without(auths, credentialID)| == |auths| - 1
  {
    assert auths == [auths[0]] + auths[1..];
    UniqueCredentialsCons(auths[0], auths[1..]);
    if auths[0].credentialID == credentialID {
      assert !CredentialTaken(auths[1..], credentialID);
      WithoutNothing(auths[1..], credentialID);
    } else {
      var a :| a in auths && a.credentialID == credentialID;
      assert a in auths[1..];
      WithoutRemovesOne(auths[1..], credentialID);
    }
  }

  /** Deleting a credential id nobody has leaves the rows as they are. */
  lemma {:induction false} WithoutNothing(auths: seq<Authenticator>, credentialID: string)
    requires !CredentialTaken(auths, credentialID)
    ensures Without(auths, credentialID) == auths
  {
    if |auths| > 0 {
      assert auths[0] in auths;
      assert forall a :: a in auths[1..] ==> a in auths;
      WithoutNothing(auths[1..], credentialID);
      assert auths == [auths[0]] + auths[1..];
    }
  }

  /** A user appended under a new email is what the lookup by that email finds. */
  lemma {:induction false} FindUserByEmailAppend(users: seq<User>, u: User)
    requires !EmailTaken(users, u.email)
    ensures FindUserByEmail(users + [u], u.email) == Some(u)
  {
    if |users| > 0 {
      assert users[0] in users;
      assert forall v :: v in users[1..] ==> v in users;
      assert (users + [u])[1..] == users[1..] + [u];
      FindUserByEmailAppend(users[1..], u);
    }
  }

  /** A user appended under a new id is what the lookup by that id finds. */
  lemma {:induction false} FindUserByIdAppend(users: seq<User>, u: User)
    requires !IdTaken(users, u.id)
    ensures FindUserById(users + [u], u.id) == Some(u)
  {
    if |users| > 0 {
      assert users[0] in users;
      assert forall v :: v in users[1..] ==> v in users;
      assert (users + [u])[1..] == users[1..] + [u];
      FindUserByIdAppend(users[1..], u);
    }
  }

  /** A user who owns no stored authenticator has an empty `authenticators` relation. */
  lemma {:induction false} AuthenticatorsOfNobody(auths: seq<Authenticator>, userId: string)
    requires forall a :: a in auths ==> a.userId != userId
    ensures AuthenticatorsOf(auths, userId) == []
  {
    if |auths| > 0 {
      assert auths[0] in auths;
      assert forall a :: a in auths[1..] ==> a in auths;
      AuthenticatorsOfNobody(auths[1..], userId);
    }
  }
}
