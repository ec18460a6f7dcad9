# Event-sourced bank ledger, modelled in Dafny

This project models the core of a small bank whose accounts are event-sourced
aggregates. An account is never stored as a row. It is the left fold of its
recorded events: `Opened`, `Credited`, `Debited`, `Closed`, `PasswordChanged`
and `OverdraftSet`. The `Bank` application loads accounts by replaying their
histories. It issues commands on them and saves the new events in one commit.

Modules, following the program's structure:

- `Wrappers` (`wrappers.dfy`): `Option` and `Result`, usable with `:-`.
- `DomainModel` (`domain_model.dfy`): the `Account` aggregate of
  `banking/domainmodel.py`. It holds the closed `Event` datatype and the
  `Error` kinds. `Apply` is the pure handler of one event. The commands
  `Open`, `Credit`, `Debit`, `Close`, `ChangePassword` and `SetOverdraftLimit`
  each build their event, run `Apply` on it, and return the event with the
  new state, or the error. An error means no event.
  In `banking/domainmodel.py`, one method body is both the command check and
  the replay handler, so a single `Apply` is faithful to both uses.
- `Reconstruction` (`reconstruction.dfy`): `Fold` and `Replay`, the
  reconstruction of an account from its history, and the lemmas that relate
  replay to the commands.
- `EventStore` (`event_store.dfy`): the store, `map<AccountId, seq<Event>>`.
  `Commit` appends the new events of one or two aggregates in a single update.
  It checks each aggregate's loaded version against the stored history length.
- `ApplicationModel` (`application_model.dfy`): the `Bank` operations of
  `banking/applicationmodel.py`, as functions from a store to a result.
- `Ledger` (`ledger.dfy`): sequences of bank operations, and the store
  invariant they preserve.
- `Scenarios` (`scenarios.dfy`): the worked examples of the test suite, stated
  for every digest function and every id derivation.

The password digest (sha512) and the id derivation from an email (uuid5) are
foreign functions. They are the fields `hash` and `idOf` of
`ApplicationModel.Env`, which every operation receives. Nothing is assumed
about them beyond being functions, and in particular neither is assumed
injective.

`Reconstruction` also gives reference definitions of what a history says,
written without `Apply`: `NetFlow` (credits minus debits), `LimitAfter` (the
most recently set overdraft limit) and `DigestAfter` (the digest of the most
recently set password). The balance, limit and password of a replayed account
are proved equal to them.

Behaviour of the code that a reader might not expect:

- A duplicate opening raises `ValueError` in the code. It is the model's
  `DuplicateAccount`.
- `change_password` does not refuse a closed account, so a closed account can
  still record password changes.
- The aggregate's `set_overdraft_limit` checks nothing. The bank refuses only
  a negative limit and a closed account. It never compares the new limit with
  the balance, so `balance >= -overdraft_limit` is not an invariant of stored
  accounts. `Scenarios.LimitLoweredBelowBalance` shows this.
- `transfer` does not check the amount itself. A non-positive amount is
  refused by the source's `debit`, after both lookups and the closed check.

## Model

| member | source | states |
|---|---|---|
| DomainModel.Apply | banking/domainmodel.py:21-73 | each handler advances the version by one and never changes id, name or email; only `Opened` can start an account |
| DomainModel.Open | banking/domainmodel.py:21-35 | a new account has balance 0, overdraft limit 0, is open, and stores the given digest as its password |
| DomainModel.Credit | banking/domainmodel.py:37-42 | fails with AccountClosed exactly on a closed account; otherwise the balance grows by exactly the amount (not checked for sign) and nothing else changes |
| DomainModel.Debit | banking/domainmodel.py:44-54 | a non-positive amount fails first, then a closed account, then an amount above balance plus limit; succeeds iff 0 < amount <= balance + limit, and then only the balance drops by the amount, ending at or above minus the limit |
| DomainModel.Close | banking/domainmodel.py:56-61 | an open account becomes closed and nothing else changes; closing a closed one fails with the "already closed" error |
| DomainModel.ChangePassword | banking/domainmodel.py:63-68 | succeeds iff the old password's digest is the stored one (BadCredentials otherwise); afterwards a password checks iff its digest equals the new password's |
| DomainModel.SetOverdraftLimit | banking/domainmodel.py:70-73 | always succeeds and sets only the limit, whatever its sign, the closure or the balance |
| DomainModel.ClosedAcceptsOnlyPasswordOrLimit | banking/domainmodel.py:37-73 | on a closed account only a password change or an overdraft limit is accepted, and the account stays closed with the same balance |
| Reconstruction.Fold | banking/domainmodel.py:9-17 | replaying events advances the version by their number, keeps the account's identity, accepts no second `Opened`, and moves the balance by the net credits, the limit to the latest one set and the password to the latest one set |
| Reconstruction.Replay | banking/domainmodel.py:9-17 | an empty history is "not found"; a history must start with `Opened`; the loaded account carries the opening id, name and email, its version is the number of events, its balance is credits minus debits, its limit the latest set (0 if none) and its password the latest set |
| Reconstruction.PasswordFollowsHistory | banking/domainmodel.py:80-82 | a password checks against a replayed account iff its digest is that of the most recently set password, or of the opening one if it was never changed |
| Reconstruction.FoldConcat | banking/domainmodel.py:9-17 | replaying a history in two parts gives the same result as replaying it at once |
| Reconstruction.ReplayExtend | banking/domainmodel.py:37-73 | replaying a history plus one event gives exactly what the command gives on the replayed account, so a recorded event reproduces the in-memory state and a refused one could not be replayed |
| Reconstruction.FoldFromClosed | banking/domainmodel.py:56-61 | events replayed from a closed state are only password changes or limits, and the state stays closed with the same balance |
| Reconstruction.ClosedIsTerminal | banking/domainmodel.py:56-61 | once a history replays to a closed account, every extension of it that replays is still closed with the same balance |
| EventStore.Commit | banking/applicationmodel.py:57 | a save of distinct aggregates succeeds iff every aggregate with new events was loaded at the current version (one with none is `Admissible` without a check); then each history grows by exactly its new events and no other history changes; otherwise it is a conflict and nothing is saved |
| EventStore.StaleCommitRejected | banking/applicationmodel.py:57 | events prepared against a version that another writer has since extended are refused as a conflict |
| ApplicationModel.GetAccount | banking/applicationmodel.py:91-95 | an id without history is AccountNotFound and nothing else is; a loaded account starts with `Opened` and its version is the history length |
| ApplicationModel.GetBalance | banking/applicationmodel.py:64-66 | an id without history is AccountNotFound; otherwise the balance is the stored credits minus the stored debits |
| ApplicationModel.GetOverdraftLimit | banking/applicationmodel.py:87-89 | an id without history is AccountNotFound; otherwise the limit is the most recently stored one, 0 if none was set |
| ApplicationModel.OpenAccount | banking/applicationmodel.py:16-30 | succeeds iff the id derived from the email has no history, and returns that id; stores exactly one `Opened` event carrying the password digest, giving a zero-balance open account; an existing account is a duplicate; no other history changes |
| ApplicationModel.Deposit | banking/applicationmodel.py:32-39 | a non-positive amount fails before the lookup, then a missing account, then a closed one (AccountClosedByBank, before the aggregate is asked); on success exactly one `Credited` event is appended, the balance grows by the amount, and no other history changes |
| ApplicationModel.Withdraw | banking/applicationmodel.py:41-48 | amount, then lookup, then closure (AccountClosedByBank), then funds; succeeds iff the amount is within balance plus limit; on success only the balance drops by the amount, staying at or above minus the limit, and no other history changes |
| ApplicationModel.Transfer | banking/applicationmodel.py:50-57 | source lookup, target lookup, either side closed (AccountClosedByBank), invalid amount, insufficient funds, in that order; on success the source loses and the target gains exactly the amount, their sum is preserved, and no other history changes |
| ApplicationModel.CloseAccount | banking/applicationmodel.py:59-62 | succeeds iff the account exists and is open; then exactly a `Closed` event is appended and the account becomes closed with nothing else changed |
| ApplicationModel.ValidatePassword | banking/applicationmodel.py:68-71 | fails with BadCredentials iff the password's digest differs from the stored one, and with the lookup's error when there is no account; it has no store to change |
| ApplicationModel.ChangePassword | banking/applicationmodel.py:73-76 | succeeds iff the old password validates; afterwards the new password validates and exactly the passwords with its digest do; no other history changes |
| ApplicationModel.SetOverdraftLimit | banking/applicationmodel.py:78-85 | a negative limit fails before the lookup, then a missing account, then a closed one (AccountClosedByBank); on success the limit read back is the one set and nothing else changes |
| ApplicationModel.UnknownIdIsNotFound | banking/applicationmodel.py:91-95 | every operation that loads an account reports an id without history as AccountNotFound, after the amount checks that precede the lookup |
| Ledger.ExecutePreservesWellFormed | banking/applicationmodel.py:16-85 | on a well-formed store no operation meets a corrupt history or a version conflict, and each successful operation leaves the store well formed |
| Ledger.RunPreservesWellFormed | banking/applicationmodel.py:16-85 | any sequence of operations keeps every stored history replayable, filed under its account's id, derived from its email, with a non-negative limit |
| Ledger.ReachableStoresAreWellFormed | banking/applicationmodel.py:16-85 | every store reachable from the empty store is well formed |
| Ledger.EmailLocatesAccount | banking/applicationmodel.py:12-14 | on a well-formed store, looking up the email of any stored account gives back that account's id |
| Scenarios.TransferExample | tests/test_banking_application.py:158-195 | 20000, 200 and 100; transfer 5000 from the first to the second, then 100 from the second to the third: 15000, 5100 and 200; a transfer of 100000 then fails with insufficient funds |
| Scenarios.OverdraftExample | tests/test_banking_application.py:259-307 | with limit 50000 and balance 200, withdrawing 50200 leaves -50000 and 100 more is refused; a negative limit is refused |
| Scenarios.DebitBoundary | banking/domainmodel.py:51-54 | a withdrawal of exactly balance plus limit leaves minus the limit; one cent more is insufficient funds |
| Scenarios.PasswordExample | tests/test_banking_application.py:310-319 | after changing "alice" to "alice2", "alice2" validates and "alice" is refused, when their digests differ |
| Scenarios.DuplicateOpenExample | banking/applicationmodel.py:16-30 | opening the same email twice is a duplicate the second time, and the first account is kept |
| Scenarios.ClosedExample | tests/test_banking_application.py:198-248 | after closing, transfer, withdraw, deposit and set limit fail with the bank's own closed error, closing again fails as already closed, and balances and limits are unchanged |
| Scenarios.LimitLoweredBelowBalance | banking/domainmodel.py:70-73 | lowering the limit below an existing overdraft is accepted and leaves the balance below minus the limit |

## Left out

- `banking/api.py` (HTTP routes, JWT login, JSON and status mapping) and `main.py` (logging and process start): transport and bootstrap, not ledger logic.
- The internals of sha512 and uuid5: they are the uninterpreted parameters `Env.hash` and `Env.idOf`.
- The `print` of the password digest in `open_account`: a side effect only.
- ApplicationModel.Transfer: requires distinct source and target, because a transfer to the same account loads two copies of one aggregate and its outcome depends on the event library's conflict handling, which is not part of this model.
- The event library's internals: its recorder, snapshots, caching, event timestamps and topic names. Versions are modelled as history lengths, and `Commit` keeps only the version check; concurrent callers are not modelled beyond `EventStore.StaleCommitRejected`.
- Exception messages: errors are modelled by kind only, except that AccountClosedError is split three ways, because its three raise sites differ: `AccountClosed` ("Account is closed.", raised by the aggregate), `AlreadyClosed` ("Account is already closed.") and `AccountClosedByBank` (no message, raised by the bank's own checks in `deposit`, `withdraw`, `transfer` and `set_overdraft_limit`). `DomainModel.IsAccountClosedError` groups them as the one exception class.
- `TransactionError` and `InvalidPasswordError` are declared but never raised, so they have no counterpart.
- Replaying a history that the aggregate rejects: a missing first `Opened` or a repeated `Opened` yields `CorruptHistory`, and an event its handler refuses yields that handler's error. The event library's exact exception for these is not part of this model.
