/** The Account aggregate of the bank (banking/domainmodel.py).

    Each operation of the aggregate is an event-producing method: its body is
    both the check run when the command is issued and the handler run when the
    event is replayed.  Here that body is the pure function `Apply`; a command
    builds its event, runs `Apply` on it, and yields the event together with
    the new state, or the error the body raises (in which case no event exists). */
module DomainModel {
  import opened Wrappers

  /** An account id: the 128-bit value of a UUID. */
  type AccountId = nat

  /** The one-way password digest (sha512 in hex); left uninterpreted. */
  type Hasher = string -> string

  /** The exception kinds the aggregate and the bank raise, plus the two faults
      that belong to the event store underneath them. */
  datatype Error =
    | InvalidAmount           // ValueError: non-positive deposit, withdrawal or debit
    | DuplicateAccount        // ValueError: an account for the email already exists
    | AccountClosed           // AccountClosedError "Account is closed.", from the aggregate
    | AlreadyClosed           // AccountClosedError "Account is already closed."
    | AccountClosedByBank     // AccountClosedError without a message, from the bank's own check
    | InsufficientFunds       // InsufficientFundsError
    | BadCredentials          // BadCredentials
    | NegativeOverdraftLimit  // AssertionError: overdraft limit below zero
    | AccountNotFound         // AccountNotFoundError: no history for the id
    | CorruptHistory          // a history not starting with `Opened`, or with a second one
    | Conflict                // a commit based on a stale version

  /** The three ways of raising AccountClosedError are one exception class. */
  predicate IsAccountClosedError(e: Error) {
    e == AccountClosed || e == AlreadyClosed || e == AccountClosedByBank
  }

  /** Current state of an account; `version` counts the events applied. */
  datatype Account = Account(
    id: AccountId,
    version: nat,
    fullName: string,
    email: string,
    password: string,     // the digest, never the plain password
    balance: int,         // in cents
    overdraftLimit: int,  // in cents
    closed: bool
  )

  /** The closed set of events, each carrying the arguments of the method
      that produced it. */
  datatype Event =
    | Opened(id: AccountId, fullName: string, email: string, password: string)
    | Credited(amount: int)
    | Debited(amount: int)
    | Closed
    | PasswordChanged(oldPassword: string, newPassword: string)
    | OverdraftSet(amount: int)

  /** Number of events behind an optional state (0 before the account exists). */
  function Version(st: Option<Account>): nat {
    if st.Some? then st.value.version else 0
  }

  predicate CheckPassword(hash: Hasher, a: Account, password: string) {
    hash(password) == a.password
  }

  /** The handler of one event: the body of the method that recorded it.
      Only `Opened` starts an account and it may not occur on an existing one. */
  function Apply(hash: Hasher, st: Option<Account>, e: Event): (r: Result<Account, Error>)
    ensures r.Ok? ==> r.value.version == Version(st) + 1
    ensures st.None? ==> (r.Ok? <==> e.Opened?)
    ensures st.Some? && r.Ok? ==>
      && r.value.id == st.value.id
      && r.value.fullName == st.value.fullName
      && r.value.email == st.value.email
    ensures r.Err? ==> r.error != AccountNotFound && r.error != Conflict
  {
    match st
    case None =>
      if e.Opened? then
        Ok(Account(e.id, 1, e.fullName, e.email, e.password, 0, 0, false))
      else
        Err(CorruptHistory)
    case Some(a) =>
      var next := a.(version := a.version + 1);
      match e
      case Opened(_, _, _, _) => Err(CorruptHistory)
      case Credited(amount) =>
        if a.closed then Err(AccountClosed)
        else Ok(next.(balance := a.balance + amount))
      case Debited(amount) =>
        if amount <= 0 then Err(InvalidAmount)
        else if a.closed then Err(AccountClosed)
        else if amount > a.balance + a.overdraftLimit then Err(InsufficientFunds)
        else Ok(next.(balance := a.balance - amount))
      case Closed =>
        if a.closed then Err(AlreadyClosed)
        else Ok(next.(closed := true))
      case PasswordChanged(oldPassword, newPassword) =>
        if !CheckPassword(hash, a, oldPassword) then Err(BadCredentials)
        else Ok(next.(password := hash(newPassword)))
      case OverdraftSet(amount) =>
        Ok(next.(overdraftLimit := amount))
  }

  /** A recorded event together with the state it leads to. */
  datatype Change = Change(event: Event, account: Account)

  /** Issue a command: apply its event, and keep the event only if that succeeds.
      Every command receives the digest function because the one handler
      `Apply` needs it for `PasswordChanged`. */
  function Trigger(hash: Hasher, st: Option<Account>, e: Event): Result<Change, Error> {
    var a :- Apply(hash, st, e);
    Ok(Change(e, a))
  }

  /** Account.__init__: a fresh open account with zero balance and limit. */
  function Open(hash: Hasher, id: AccountId, fullName: string, email: string, digest: string): (r: Result<Change, Error>)
    ensures r.Ok?
    ensures r.value.event == Opened(id, fullName, email, digest)
    ensures var a := r.value.account;
      && a.id == id && a.fullName == fullName && a.email == email
      && a.password == digest
      && a.balance == 0 && a.overdraftLimit == 0 && !a.closed
      && a.version == 1
  {
    Trigger(hash, None, Opened(id, fullName, email, digest))
  }

  /** Account.credit: only a closed account is refused; the amount is not checked. */
  function Credit(hash: Hasher, a: Account, amount: int): (r: Result<Change, Error>)
    ensures r.Ok? <==> !a.closed
    ensures r.Err? ==> r.error == AccountClosed
    ensures r.Ok? ==>
      && r.value.event == Credited(amount)
      && r.value.account == a.(balance := a.balance + amount, version := a.version + 1)
  {
    Trigger(hash, Some(a), Credited(amount))
  }

  /** Account.debit: checks the amount, then closure, then funds, in that order. */
  function Debit(hash: Hasher, a: Account, amount: int): (r: Result<Change, Error>)
    ensures amount <= 0 ==> r == Err(InvalidAmount)
    ensures amount > 0 && a.closed ==> r == Err(AccountClosed)
    ensures amount > 0 && !a.closed && amount > a.balance + a.overdraftLimit ==> r == Err(InsufficientFunds)
    ensures r.Ok? <==> 0 < amount <= a.balance + a.overdraftLimit && !a.closed
    ensures r.Ok? ==>
      && r.value.event == Debited(amount)
      && r.value.account == a.(balance := a.balance - amount, version := a.version + 1)
      && r.value.account.balance >= -a.overdraftLimit
  {
    Trigger(hash, Some(a), Debited(amount))
  }

  /** Account.close: open becomes closed; closing twice is refused. */
  function Close(hash: Hasher, a: Account): (r: Result<Change, Error>)
    ensures r.Ok? <==> !a.closed
    ensures r.Err? ==> r.error == AlreadyClosed
    ensures r.Ok? ==>
      && r.value.event == Closed
      && r.value.account == a.(closed := true, version := a.version + 1)
  {
    Trigger(hash, Some(a), Closed)
  }

  /** Account.change_password: the old password must match the stored digest;
      closure is not checked. */
  function ChangePassword(hash: Hasher, a: Account, oldPassword: string, newPassword: string): (r: Result<Change, Error>)
    ensures r.Ok? <==> CheckPassword(hash, a, oldPassword)
    ensures r.Err? ==> r.error == BadCredentials
    ensures r.Ok? ==>
      && r.value.event == PasswordChanged(oldPassword, newPassword)
      && r.value.account == a.(password := hash(newPassword), version := a.version + 1)
      && CheckPassword(hash, r.value.account, newPassword)
      && (forall p :: CheckPassword(hash, r.value.account, p) <==> hash(p) == hash(newPassword))
  {
    Trigger(hash, Some(a), PasswordChanged(oldPassword, newPassword))
  }

  /** Account.set_overdraft_limit: no check at all, neither of the sign of the
      limit, nor of closure, nor of the current balance. */
  function SetOverdraftLimit(hash: Hasher, a: Account, amount: int): (r: Result<Change, Error>)
    ensures r.Ok?
    ensures r.value.event == OverdraftSet(amount)
    ensures r.value.account == a.(overdraftLimit := amount, version := a.version + 1)
  {
    Trigger(hash, Some(a), OverdraftSet(amount))
  }

  /** A closed account accepts only a password change or a new overdraft limit
      (neither handler looks at `closed`), and it stays closed with its balance. */
  lemma ClosedAcceptsOnlyPasswordOrLimit(hash: Hasher, a: Account, e: Event)
    requires a.closed
    requires Apply(hash, Some(a), e).Ok?
    ensures e.PasswordChanged? || e.OverdraftSet?
    ensures var b := Apply(hash, Some(a), e).value;
      b.closed && b.balance == a.balance
  {
  }
}
