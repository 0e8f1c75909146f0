/**
 * The POST `/` registration handler: validate, check that no user has this
 * username and email, hash the password, create the user, and answer with the
 * serialized user plus an `authToken`; or answer with the error record, or an
 * opaque 500.
 *
 * The collaborators the handler cannot see (bcrypt's hash, `User.serialize`,
 * `createAuthToken`) are parameters, and which of the asynchronous steps fail is
 * an explicit input.
 */
module Registration {
  import opened Wrappers
  import opened Json
  import opened Builtins
  import opened Messages
  import opened Validation
  import opened UserStore

  /** The external functions the handler calls. */
  datatype Services = Services(
    hash: string -> string,         // `User.hashPassword`
    serialize: User -> Object,      // `user.serialize()`
    issueToken: Object -> string)   // `createAuthToken`

  /** Which asynchronous step throws: the count query, the hash, the create, or
      the response step (serialize or token issuance). */
  datatype Faults = Faults(count: bool, hash: bool, create: bool, respond: bool)

  const NoFaults := Faults(false, false, false, false)

  datatype Response = Response(status: int, body: Object)

  /** What reaches the promise chain's `catch`. */
  datatype Thrown = Rejection(record: ErrorRecord) | Crash

  datatype Outcome = Outcome(store: Store, response: Response)

  const InternalErrorBody: Object :=
    map["code" := JNumber(500), "message" := JString("Internal server error")]

  /** `res.status(err.code).json(err)` */
  function ErrorResponse(e: ErrorRecord): Response {
    Response(e.code, e.ToJson())
  }

  /** The `catch`: errors whose reason is ValidationError keep their own code and
      body; anything else becomes an opaque 500. */
  function Catch(t: Thrown): (r: Response)
    ensures t.Rejection? && t.record.reason == "ValidationError" ==> r == ErrorResponse(t.record)
    ensures !(t.Rejection? && t.record.reason == "ValidationError") ==>
              r == Response(500, InternalErrorBody)
    // nothing but a ValidationError record ever reaches the client with details
    ensures r.body != InternalErrorBody ==> t.Rejection? && r.body == t.record.ToJson()
  {
    if t.Rejection? && t.record.reason == "ValidationError" then ErrorResponse(t.record)
    else Response(500, InternalErrorBody)
  }

  /** The conflict the uniqueness check raises. */
  const TakenError := Reject(TakenMessage, "username")

  /** The serialized user with the token added. */
  function CreatedBody(user: User, services: Services): Object {
    var out := services.serialize(user);
    out["authToken" := JString(services.issueToken(out))]
  }

  /** The record registration appends for validated fields `f`. */
  predicate IsRecordFor(u: User, f: Fields, services: Services) {
    && u.username == f.username && u.email == f.email
    && u.password == services.hash(f.password)
    && u.firstName == f.firstName && u.lastName == f.lastName
  }

  /** Everything after validation: the uniqueness check, the hash, the create
      and the response, for validated fields `f`. */
  function Admit(store: Store, f: Fields, services: Services, faults: Faults): (o: Outcome)
    // the store either stays as it was or gains exactly one record at the end
    ensures o.store == store || (|o.store| == |store| + 1 && o.store[..|store|] == store)
    // only two statuses beyond 201, and a 500 carries nothing but the opaque message
    ensures o.response.status in {201, 422, 500}
    ensures o.response.status == 500 ==> o.response.body == InternalErrorBody
    // a failing count query, hash or create answers the opaque 500 and stores nothing
    ensures faults.count ==> o == Outcome(store, Response(500, InternalErrorBody))
    ensures !faults.count && !Taken(store, f.username, f.email) && (faults.hash || faults.create) ==>
              o == Outcome(store, Response(500, InternalErrorBody))
    // the conflict: some user has both this username and this email
    ensures !faults.count && Taken(store, f.username, f.email) ==>
              o == Outcome(store, ErrorResponse(TakenError))
    ensures o.response.status == 422 ==> o == Outcome(store, ErrorResponse(TakenError))
    // a new record is stored only when the uniqueness check passed
    ensures o.store != store ==>
              && !Taken(store, f.username, f.email)
              && IsRecordFor(o.store[|store|], f, services)
              && forall i :: 0 <= i < |store| ==> store[i].id != o.store[|store|].id
    // with no step failing, a fresh pair is always stored and answered with 201
    ensures faults == NoFaults && !Taken(store, f.username, f.email) ==>
              && o.store != store
              && o.response == Response(201, CreatedBody(o.store[|store|], services))
    // the 201 body is the serialized new user with its token added
    ensures o.response.status == 201 ==>
              && o.store != store
              && var out := services.serialize(o.store[|store|]);
                 o.response.body == out["authToken" := JString(services.issueToken(out))]
  {
    if faults.count then Outcome(store, Catch(Crash))
    else if CountMatching(store, f.username, f.email) > 0 then
      Outcome(store, Catch(Rejection(TakenError)))
    else if faults.hash then Outcome(store, Catch(Crash))
    else
      var hash := services.hash(f.password);
      if faults.create then Outcome(store, Catch(Crash))
      else
        var store' := Create(store, f.username, hash, f.email, f.firstName, f.lastName);
        if faults.respond then Outcome(store', Catch(Crash))
        else Outcome(store', Response(201, CreatedBody(store'[|store|], services)))
  }

  /** The whole handler: a body the validator rejects is answered with its
      error record and the store is left alone. */
  function Register(store: Store, body: Object, services: Services, faults: Faults): (o: Outcome)
    ensures Validate(body).Failure? ==>
              o == Outcome(store, ErrorResponse(Validate(body).error)) && o.response.status == 422
    ensures o.store == store || (|o.store| == |store| + 1 && o.store[..|store|] == store)
    ensures o.response.status in {201, 422, 500}
    ensures o.store != store ==> Validate(body).Success?
  {
    match Validate(body)
    case Failure(e) => Outcome(store, ErrorResponse(e))
    case Success(f) => Admit(store, f, services, faults)
  }

  // ------------------------------------------------------------ properties

  /** No two records share a username. */
  predicate DistinctUsernames(store: Store) {
    forall i, j :: 0 <= i < j < |store| ==> store[i].username != store[j].username
  }

  /** A username may be reused with another email: the handler's check only looks
      for the exact pair, so it does not block the registration, which then
      appends a second record with that username. */
  lemma {:induction false} UsernameReuseAccepted(store: Store, body: Object, services: Services, k: nat)
    requires Validate(body).Success?
    requires k < |store| && store[k].username == Validate(body).value.username
    requires !Taken(store, Validate(body).value.username, Validate(body).value.email)
    ensures var o := Register(store, body, services, NoFaults);
            && o.response.status == 201
            && |o.store| == |store| + 1
            && !DistinctUsernames(o.store)
  {
    var o := Register(store, body, services, NoFaults);
    assert o.store[k] == store[k];
    assert o.store[k].username == o.store[|store|].username;
  }

  /** Repeating a registration that succeeded is rejected as taken, and the
      store is left as the first registration made it. */
  lemma {:induction false} RetryRejected(store: Store, body: Object, services: Services,
                                         faults: Faults, retryFaults: Faults)
    requires Register(store, body, services, faults).store != store
    requires !retryFaults.count
    ensures var after := Register(store, body, services, faults).store;
            Register(after, body, services, retryFaults) == Outcome(after, ErrorResponse(TakenError))
  {
    var after := Register(store, body, services, faults).store;
    var f := Validate(body).value;
    assert after[|store|].username == f.username && after[|store|].email == f.email;
    assert Taken(after, f.username, f.email);
  }

  /** Registration never stores two records with the same username and email. */
  lemma {:induction false} PreservesDistinctPairs(store: Store, body: Object, services: Services,
                                                  faults: Faults)
    requires DistinctPairs(store)
    ensures DistinctPairs(Register(store, body, services, faults).store)
  {
    var o := Register(store, body, services, faults);
    if o.store != store {
      var f := Validate(body).value;
      forall i, j | 0 <= i < j < |o.store|
        ensures o.store[i].username != o.store[j].username || o.store[i].email != o.store[j].email
      {
        if j == |store| {
          assert o.store[i] == store[i];
          assert !(store[i].username == f.username && store[i].email == f.email);
        } else {
          assert o.store[i] == store[i] && o.store[j] == store[j];
        }
      }
    }
  }

  /** When serializing the new user or issuing its token fails, the client gets
      the opaque 500 but the record has already been stored. */
  lemma LateFailureKeepsRecord(store: Store, body: Object, services: Services)
    requires Validate(body).Success?
    requires !Taken(store, Validate(body).value.username, Validate(body).value.email)
    ensures var o := Register(store, body, services, Faults(false, false, false, true));
            && o.response == Response(500, InternalErrorBody)
            && |o.store| == |store| + 1
            && IsRecordFor(o.store[|store|], Validate(body).value, services)
  {
  }

  /** Any failure up to and including the create leaves the store unchanged, and
      once the body is valid and not rejected as taken, it is answered with the
      opaque 500. */
  lemma EarlyFailureKeepsStore(store: Store, body: Object, services: Services, faults: Faults)
    requires faults.count || faults.hash || faults.create
    ensures Register(store, body, services, faults).store == store
    ensures Validate(body).Success? &&
            (faults.count || !Taken(store, Validate(body).value.username, Validate(body).value.email)) ==>
              Register(store, body, services, faults).response == Response(500, InternalErrorBody)
  {
  }
}
