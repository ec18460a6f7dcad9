/** Sequences of bank operations over one store, as the bank's callers issue
    them: an operation that raises leaves the store as it was.  Every store
    reached this way from the empty store is well formed. */
module Ledger {
  import opened Wrappers
  import opened DomainModel
  import opened EventStore
  import Bank = ApplicationModel

  /** The bank operations that save events. */
  datatype Operation =
    | OpenAccount(fullName: string, email: string, password: string)
    | Deposit(id: AccountId, amount: int)
    | Withdraw(id: AccountId, amount: int)
    | Transfer(source: AccountId, target: AccountId, amount: int)
    | CloseAccount(id: AccountId)
    | ChangePassword(id: AccountId, oldPassword: string, newPassword: string)
    | SetOverdraftLimit(id: AccountId, amount: int)

  /** A transfer names two different accounts. */
  predicate Valid(op: Operation) {
    op.Transfer? ==> op.source != op.target
  }

  function Execute(env: Bank.Env, store: Store, op: Operation): Result<Store, Error>
    requires Valid(op)
  {
    match op
    case OpenAccount(fullName, email, password) =>
      var created :- Bank.OpenAccount(env, store, fullName, email, password);
      Ok(created.1)
    case Deposit(id, amount) => Bank.Deposit(env, store, id, amount)
    case Withdraw(id, amount) => Bank.Withdraw(env, store, id, amount)
    case Transfer(source, target, amount) => Bank.Transfer(env, store, source, target, amount)
    case CloseAccount(id) => Bank.CloseAccount(env, store, id)
    case ChangePassword(id, oldPassword, newPassword) =>
      Bank.ChangePassword(env, store, id, oldPassword, newPassword)
    case SetOverdraftLimit(id, amount) => Bank.SetOverdraftLimit(env, store, id, amount)
  }

  /** Issue `ops` in order; a refused operation saves nothing. */
  function Run(env: Bank.Env, store: Store, ops: seq<Operation>): Store
    requires forall i :: 0 <= i < |ops| ==> Valid(ops[i])
    decreases |ops|
  {
    if ops == [] then store
    else
      var next := match Execute(env, store, ops[0]) case Ok(s) => s case Err(_) => store;
      Run(env, next, ops[1..])
  }

  /** The history stored under `id` replays to an account with that id, whose
      email derives that id, and whose overdraft limit is not negative. */
  predicate Healthy(env: Bank.Env, store: Store, id: AccountId) {
    var r := Bank.GetAccount(env, store, id);
    && r.Ok?
    && r.value.id == id
    && env.idOf(r.value.email) == id
    && r.value.overdraftLimit >= 0
  }

  ghost predicate WellFormed(env: Bank.Env, store: Store) {
    forall id :: Log(store, id) != [] ==> Healthy(env, store, id)
  }

  /** On a well-formed store every operation either fails with one of the
      bank's own errors (never a corrupt history, never a version conflict) or
      yields a well-formed store. */
  lemma ExecutePreservesWellFormed(env: Bank.Env, store: Store, op: Operation)
    requires Valid(op) && WellFormed(env, store)
    ensures Execute(env, store, op).Ok? ==> WellFormed(env, Execute(env, store, op).value)
    ensures Execute(env, store, op).Err? ==>
      Execute(env, store, op).error !in {CorruptHistory, Conflict}
  {
  }

  /** Running any valid sequence of operations keeps a store well formed. */
  lemma {:induction false} RunPreservesWellFormed(env: Bank.Env, store: Store, ops: seq<Operation>)
    requires forall i :: 0 <= i < |ops| ==> Valid(ops[i])
    requires WellFormed(env, store)
    ensures WellFormed(env, Run(env, store, ops))
    decreases |ops|
  {
    if ops != [] {
      ExecutePreservesWellFormed(env, store, ops[0]);
      var next := match Execute(env, store, ops[0]) case Ok(s) => s case Err(_) => store;
      assert forall i :: 0 <= i < |ops| - 1 ==> ops[1..][i] == ops[i + 1];
      RunPreservesWellFormed(env, next, ops[1..]);
    }
  }

  /** Every store the bank can reach from an empty one holds only histories
      that replay, filed under the id their email derives, with a limit that
      is not negative. */
  lemma ReachableStoresAreWellFormed(env: Bank.Env, ops: seq<Operation>)
    requires forall i :: 0 <= i < |ops| ==> Valid(ops[i])
    ensures WellFormed(env, Run(env, map[], ops))
  {
    RunPreservesWellFormed(env, map[], ops);
  }

  /** Bank.get_account_id_by_email on a reachable store: the email of any
      stored account leads back to that account. */
  lemma EmailLocatesAccount(env: Bank.Env, store: Store, id: AccountId)
    requires WellFormed(env, store) && Log(store, id) != []
    ensures Bank.GetAccount(env, store, id).Ok?
    ensures Bank.GetAccountIdByEmail(env, Bank.GetAccount(env, store, id).value.email) == id
  {
  }
}
