/**
 * The abstract user store the handler talks to: a sequence of records in
 * insertion order, the conjunctive (username AND email) count query, and
 * creation with a store-assigned identifier.
 */
module UserStore {

  /** A persisted user; `password` holds the result of the hash. */
  datatype User = User(id: nat, username: string, password: string, email: string,
                       firstName: string, lastName: string)

  type Store = seq<User>

  /** Some record carries both this username and this email. */
  predicate Taken(store: Store, username: string, email: string) {
    exists i :: 0 <= i < |store| && store[i].username == username && store[i].email == email
  }

  /** `User.find({username, email}).count()` */
  function CountMatching(store: Store, username: string, email: string): (n: nat)
    ensures n <= |store|
    ensures n > 0 <==> Taken(store, username, email)
  {
    if |store| == 0 then 0
    else
      var last := store[|store| - 1];
      var rest := CountMatching(store[..|store| - 1], username, email);
      assert forall i :: 0 <= i < |store| - 1 ==> store[..|store| - 1][i] == store[i];
      if last.username == username && last.email == email then rest + 1 else rest
  }

  /** The identifier the store gives a new record: one above every identifier in use. */
  function FreshId(store: Store): (id: nat)
    ensures forall i :: 0 <= i < |store| ==> store[i].id < id
  {
    if |store| == 0 then 0
    else
      var rest := FreshId(store[..|store| - 1]);
      assert forall i :: 0 <= i < |store| - 1 ==> store[..|store| - 1][i] == store[i];
      if store[|store| - 1].id + 1 > rest then store[|store| - 1].id + 1 else rest
  }

  /** Identifiers are pairwise distinct. */
  predicate DistinctIds(store: Store) {
    forall i, j :: 0 <= i < j < |store| ==> store[i].id != store[j].id
  }

  /** No two records share both username and email: all the handler's check can guarantee. */
  predicate DistinctPairs(store: Store) {
    forall i, j :: 0 <= i < j < |store| ==>
      store[i].username != store[j].username || store[i].email != store[j].email
  }

  /** `User.create(...)`: appends one record with a fresh identifier. */
  function Create(store: Store, username: string, password: string, email: string,
                  firstName: string, lastName: string): (s: Store)
    ensures |s| == |store| + 1 && s[..|store|] == store
    ensures s[|store|].username == username && s[|store|].password == password
    ensures s[|store|].email == email
    ensures s[|store|].firstName == firstName && s[|store|].lastName == lastName
    ensures forall i :: 0 <= i < |store| ==> store[i].id != s[|store|].id
    ensures DistinctIds(store) ==> DistinctIds(s)
  {
    store + [User(FreshId(store), username, password, email, firstName, lastName)]
  }
}
