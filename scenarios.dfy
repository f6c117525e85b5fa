/** Properties that span several requests, stated as clients of the handlers:
    each method below performs a sequence of calls and its postcondition says
    what any such sequence must produce. */
module Scenarios {
  import opened Common
  import opened Text
  import opened Security
  import opened Users
  import opened Calculations

  /** Two requests without a token against an empty store resolve to the same
      user, and only one user is ever created. */
  method FallbackIsIdempotent(store: UserStore) returns (first: Result<Account, Error>, second: Result<Account, Error>)
    requires store.Valid() && store.users == map[]
    modifies store
    ensures store.Valid()
    ensures first.Ok? && first == second
    ensures store.users == map[first.value.id := DefaultUser(store.primitives)]
  {
    first := store.CurrentUser(None);
    second := store.CurrentUser(None);
    assert store.users.Keys == {first.value.id};
  }

  /** Registering the same email twice: the first succeeds, the second fails
      with 400 and leaves the store as the first left it. */
  method RegisterTwice(store: UserStore, email: string, password: string, again: string)
    returns (first: Result<Account, Error>, second: Result<Account, Error>)
    requires store.Valid() && !EmailTaken(store.users, email)
    modifies store
    ensures store.Valid()
    ensures first.Ok? && first.value.user.email == email
    ensures second == Err(BadRequest(EmailTakenDetail))
    ensures store.users == old(store.users)[first.value.id := first.value.user]
  {
    first := store.Register(email, password);
    assert store.users[first.value.id].email == email;
    second := store.Register(email, again);
  }

  /** Register, log in with the same password, then present the token: the
      request resolves to the user just registered. */
  method RegisterLoginResolve(store: UserStore, email: string, password: string)
    returns (account: Result<Account, Error>, login: Result<TokenResponse, Error>, resolved: Result<Account, Error>)
    requires store.Valid() && !EmailTaken(store.users, email)
    requires HashVerifies(store.primitives) && TokensRoundTrip(store.primitives)
    modifies store
    ensures store.Valid()
    ensures account.Ok? && login.Ok? && login.value.tokenType == "bearer"
    ensures resolved == account
  {
    account := store.Register(email, password);
    var id := account.value.id;
    assert store.primitives.verify(password, store.users[id].hashedPassword);
    login := store.Login(email, password);
    assert store.users[id].email == email;
    assert login.value.accessToken == store.primitives.issue(IntToString(id)) by {
      var other :| other in store.users && store.users[other].email == email
                   && login.value == TokenResponse(store.primitives.issue(IntToString(other)), "bearer");
      assert other == id;
    }
    IssuedTokenResolves(store.users, store.primitives, id);
    resolved := store.CurrentUser(Some(login.value.accessToken));
  }

  /** A row created for user `a` is invisible to user `b`: reading, editing and
      deleting it as `b` all fail with 404, and the row stays as created. */
  method OwnershipIsolation(table: CalcTable, a: int, b: int, now: Timestamp)
    returns (created: Result<Row, Error>, read: Result<Row, Error>, edited: Result<Row, Error>, deleted: Result<(), Error>)
    requires table.Valid() && a != b
    modifies table
    ensures table.Valid()
    ensures created.Ok? && created.value.record.userId == a
    ensures table.table == old(table.table)[created.value.id := created.value.record]
    ensures read == Err(NotFound(NotFoundDetail))
    ensures edited == Err(NotFound(NotFoundDetail))
    ensures deleted == Err(NotFound(NotFoundDetail))
  {
    LowerKeepsLowercase("add");
    ArithmeticNeverFails("add", 2.0, 3.0);
    created := table.Add(a, "add", 2.0, 3.0, now);
    var id := created.value.id;
    read := table.Read(b, id);
    edited := table.Edit(b, id, "multiply", 4.0, 5.0);
    deleted := table.Delete(b, id);
  }

  /** The two evaluations the create-edit scenario relies on. */
  lemma SampleValues()
    ensures PerformOperation("add", 2.0, 3.0) == Ok(5.0)
    ensures PerformOperation("multiply", 4.0, 5.0) == Ok(20.0)
  {
  }

  /** Create 2 + 3, change it to 4 * 5, delete it, read it again. */
  method CreateEditDeleteRead(table: CalcTable, uid: int, now: Timestamp)
    returns (created: Result<Row, Error>, edited: Result<Row, Error>, deleted: Result<(), Error>, reread: Result<Row, Error>)
    requires table.Valid()
    modifies table
    ensures table.Valid()
    ensures created.Ok? && created.value.record.result == 5.0
    ensures edited.Ok? && edited.value.id == created.value.id && edited.value.record.result == 20.0
    ensures edited.value.record.createdAt == now
    ensures deleted == Ok(())
    ensures reread == Err(NotFound(NotFoundDetail))
  {
    SampleValues();
    created := table.Add(uid, "add", 2.0, 3.0, now);
    var id := created.value.id;
    assert created.value.record.result == 5.0;
    assert Visible(table.table, uid, id) && table.table[id].createdAt == now;
    edited := table.Edit(uid, id, "multiply", 4.0, 5.0);
    assert edited.Ok? && edited.value.id == id;
    assert edited.value.record.result == 20.0 && edited.value.record.createdAt == now;
    assert Visible(table.table, uid, id);
    deleted := table.Delete(uid, id);
    assert deleted.Ok? && id !in table.table;
    assert deleted.value == ();
    reread := table.Read(uid, id);
  }
}
