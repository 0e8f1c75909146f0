/** Worked inputs: the registration of "alice" and the password length boundaries. */
module Examples {
  import opened Wrappers
  import opened Json
  import opened Builtins
  import opened Validation
  import opened UserStore
  import opened Registration

  function Body(username: string, email: string, password: string): Object {
    map["username" := JString(username), "email" := JString(email), "password" := JString(password)]
  }

  /** A body holding only the three required fields, all strings, with a trimmed
      username and password, reaches the length stage. */
  lemma PlainBody(username: string, email: string, password: string)
    requires IsTrimmed(username) && IsTrimmed(password)
    ensures var body := Body(username, email, password);
            && Typed(body) && FirstUntrimmed(body).None?
            && "firstName" !in body && "lastName" !in body
            && body["username"].s == username && body["password"].s == password
            && body["email"].s == email
  {
    var body := Body(username, email, password);
    assert body["username"] == JString(username);
    assert body["password"] == JString(password);
    assert body["email"] == JString(email);
    assert body.Keys == {"username", "email", "password"};
  }

  lemma Letters(n: nat)
    ensures IsTrimmed(seq(n, _ => 'a'))
  {
  }

  lemma PasswordOfLength(n: nat)
    ensures var body := Body("alice", "a@x.com", seq(n, _ => 'a'));
            && (n < 6 ==> Validate(body) == Failure(Reject("Must be at least 6 characters long", "password")))
            && (6 <= n <= 72 ==> Validate(body).Success?)
            && (n > 72 ==> Validate(body) == Failure(Reject("Must be at most 72 characters long", "password")))
  {
    assert IsTrimmed("alice");
    Letters(n);
    PlainBody("alice", "a@x.com", seq(n, _ => 'a'));
    LengthBoundsReported(Body("alice", "a@x.com", seq(n, _ => 'a')));
  }

  /** Password length 5 is too short, 6 and 72 pass, 73 is too long. */
  lemma PasswordBoundaries()
    ensures Validate(Body("alice", "a@x.com", seq(5, _ => 'a')))
            == Failure(Reject("Must be at least 6 characters long", "password"))
    ensures Validate(Body("alice", "a@x.com", seq(6, _ => 'a'))).Success?
    ensures Validate(Body("alice", "a@x.com", seq(72, _ => 'a'))).Success?
    ensures Validate(Body("alice", "a@x.com", seq(73, _ => 'a')))
            == Failure(Reject("Must be at most 72 characters long", "password"))
  {
    PasswordOfLength(5);
    PasswordOfLength(6);
    PasswordOfLength(72);
    PasswordOfLength(73);
  }

  /** "alice" registers into an empty store with empty names; registering her
      again is rejected as taken, at location username. */
  lemma AliceRegisters(services: Services)
    ensures var body := Body("alice", "a@x.com", "secret1");
            var first := Register([], body, services, NoFaults);
            && Validate(body) == Success(Fields("alice", "a@x.com", "secret1", "", ""))
            && first.response.status == 201
            && |first.store| == 1
            && first.store[0].username == "alice" && first.store[0].firstName == ""
            && first.store[0].password == services.hash("secret1")
            && Register(first.store, body, services, NoFaults).response
               == Response(422, ErrorRecord(422, "ValidationError", "Username already taken", "username").ToJson())
  {
    var body := Body("alice", "a@x.com", "secret1");
    assert IsTrimmed("alice") && IsTrimmed("secret1");
    PlainBody("alice", "a@x.com", "secret1");
    LengthBoundsReported(body);
    RetryRejected([], body, services, NoFaults, NoFaults);
  }
}
