/** The event store under the bank: one append-only history per account id.
    A commit carries, for each aggregate it saves, the version the aggregate
    had when it was loaded; the commit is refused as a whole if any of those
    versions is no longer the length of the stored history. */
module EventStore {
  import opened Wrappers
  import opened DomainModel

  type Store = map<AccountId, seq<Event>>

  /** The history of `id`; an unknown id has an empty history. */
  function Log(store: Store, id: AccountId): seq<Event> {
    if id in store then store[id] else []
  }

  /** The new events of one aggregate, with the version it was loaded at. */
  datatype Pending = Pending(id: AccountId, version: nat, events: seq<Event>)

  /** The pending aggregate was loaded from the history now stored. */
  predicate Current(store: Store, p: Pending) {
    |Log(store, p.id)| == p.version
  }

  /** A pending aggregate with no new events writes nothing, so its version
      is not checked; any other must be current. */
  predicate Admissible(store: Store, p: Pending) {
    p.events == [] || Current(store, p)
  }

  function Ids(batch: seq<Pending>): set<AccountId> {
    set i | 0 <= i < |batch| :: batch[i].id
  }

  predicate DistinctIds(batch: seq<Pending>) {
    forall i, j :: 0 <= i < j < |batch| ==> batch[i].id != batch[j].id
  }

  /** Append the new events of every aggregate in `batch` in one update:
      either every version check passes and every history grows by its new
      events (an aggregate with none is left alone), or the store
      is left as it was and the commit fails with `Conflict`. */
  function Commit(store: Store, batch: seq<Pending>): (r: Result<Store, Error>)
    decreases |batch|
    ensures DistinctIds(batch) ==>
      (r.Ok? <==> forall i :: 0 <= i < |batch| ==> Admissible(store, batch[i]))
    ensures r.Err? ==> r.error == Conflict
    ensures DistinctIds(batch) && r.Ok? ==>
      forall i :: 0 <= i < |batch| ==>
        Log(r.value, batch[i].id) == Log(store, batch[i].id) + batch[i].events
    ensures r.Ok? ==> forall id :: id !in Ids(batch) ==> Log(r.value, id) == Log(store, id)
  {
    if batch == [] then Ok(store)
    else
      var p := batch[0];
      if !Admissible(store, p) then Err(Conflict)
      else
        var next := if p.events == [] then store else store[p.id := Log(store, p.id) + p.events];
        assert forall i :: 0 <= i < |batch| - 1 ==> batch[1..][i] == batch[i + 1];
        assert Ids(batch) == {p.id} + Ids(batch[1..]);
        Commit(next, batch[1..])
  }

  /** Optimistic concurrency: once another writer has appended to a history,
      a commit prepared against the older version is refused. */
  lemma StaleCommitRejected(store: Store, mine: Pending, theirs: Pending, after: Store)
    requires Current(store, mine) && Current(store, theirs)
    requires mine.id == theirs.id && mine.events != [] && theirs.events != []
    requires Commit(store, [theirs]) == Ok(after)
    ensures Commit(after, [mine]) == Err(Conflict)
  {
  }
}
