/** The Bank application (banking/applicationmodel.py): every operation loads
    the accounts it needs by replaying their histories, issues commands on the
    Account aggregate, and saves the resulting events in one commit.  Nothing
    is saved when any step raises. */
module ApplicationModel {
  import opened Wrappers
  import opened DomainModel
  import opened Reconstruction
  import opened EventStore

  /** The two foreign functions the bank depends on: the password digest
      (sha512) and the id derivation from an email address (uuid5 in the URL
      namespace).  Neither is assumed injective. */
  datatype Env = Env(hash: Hasher, idOf: string -> AccountId)

  /** Bank.get_account_id_by_email: a pure function of the email, so the same
      email always resolves to the same account. */
  function GetAccountIdByEmail(env: Env, email: string): AccountId {
    env.idOf(email)
  }

  /** Bank.get_account: replay the stored history; no history is
      AccountNotFound. */
  function GetAccount(env: Env, store: Store, id: AccountId): (r: Result<Account, Error>)
    ensures r == Err(AccountNotFound) <==> Log(store, id) == []
    ensures r.Ok? ==> Log(store, id)[0].Opened? && r.value.id == Log(store, id)[0].id && r.value.version == |Log(store, id)|
    ensures r.Err? ==> r.error != Conflict
  {
    Replay(env.hash, Log(store, id))
  }

  /** Bank.get_balance: the balance is the stored credits minus the stored
      debits; an id without history is AccountNotFound. */
  function GetBalance(env: Env, store: Store, id: AccountId): (r: Result<int, Error>)
    ensures r == Err(AccountNotFound) <==> Log(store, id) == []
    ensures r.Ok? <==> GetAccount(env, store, id).Ok?
    ensures r.Ok? ==> r.value == NetFlow(Log(store, id))
  {
    var a :- GetAccount(env, store, id);
    Ok(a.balance)
  }

  /** Bank.get_overdraft_limit: the most recently stored limit, 0 if none was
      ever set; an id without history is AccountNotFound. */
  function GetOverdraftLimit(env: Env, store: Store, id: AccountId): (r: Result<int, Error>)
    ensures r == Err(AccountNotFound) <==> Log(store, id) == []
    ensures r.Ok? <==> GetAccount(env, store, id).Ok?
    ensures r.Ok? ==> r.value == LimitAfter(0, Log(store, id))
  {
    var a :- GetAccount(env, store, id);
    Ok(a.overdraftLimit)
  }

  /** Bank.open_account: the id is derived from the email; an id that already
      loads is a duplicate; otherwise exactly one `Opened` event carrying the
      password digest is stored under it. */
  function OpenAccount(env: Env, store: Store, fullName: string, email: string, password: string)
    : (r: Result<(AccountId, Store), Error>)
    ensures r.Ok? <==> Log(store, env.idOf(email)) == []
    ensures GetAccount(env, store, env.idOf(email)).Ok? ==> r == Err(DuplicateAccount)
    ensures r.Err? ==> r.error != Conflict
    ensures r.Ok? ==>
      var (id, after) := r.value;
      && id == GetAccountIdByEmail(env, email)
      && Log(after, id) == [Opened(id, fullName, email, env.hash(password))]
      && GetAccount(env, after, id) == Ok(Account(id, 1, fullName, email, env.hash(password), 0, 0, false))
      && forall other :: other != id ==> Log(after, other) == Log(store, other)
  {
    var id := GetAccountIdByEmail(env, email);
    var digest := env.hash(password);
    match GetAccount(env, store, id)
    case Ok(_) => Err(DuplicateAccount)
    case Err(e) =>
      if e != AccountNotFound then Err(e)
      else
        var c := Open(env.hash, id, fullName, email, digest).value;
        ReplayExtend(env.hash, [], c.event);
        assert [] + [c.event] == [c.event];
        assert DistinctIds([Pending(id, 0, [c.event])]);
        var after := Commit(store, [Pending(id, 0, [c.event])]).value;
        Ok((id, after))
  }

  /** Bank.deposit: the amount is checked before the account is loaded, and a
      closed account is refused before the aggregate is asked. */
  function Deposit(env: Env, store: Store, id: AccountId, amount: int): (r: Result<Store, Error>)
    ensures amount <= 0 ==> r == Err(InvalidAmount)
    ensures amount > 0 && GetAccount(env, store, id).Err? ==> r == Err(GetAccount(env, store, id).error)
    ensures amount > 0 && GetAccount(env, store, id).Ok? && GetAccount(env, store, id).value.closed ==>
      r == Err(AccountClosedByBank)
    ensures r.Ok? <==> amount > 0 && GetAccount(env, store, id).Ok? && !GetAccount(env, store, id).value.closed
    ensures r.Ok? ==>
      var a := GetAccount(env, store, id).value;
      && Log(r.value, id) == Log(store, id) + [Credited(amount)]
      && GetAccount(env, r.value, id) == Ok(a.(balance := a.balance + amount, version := a.version + 1))
    ensures r.Ok? ==> forall other :: other != id ==> Log(r.value, other) == Log(store, other)
  {
    if amount <= 0 then Err(InvalidAmount)
    else
      var a :- GetAccount(env, store, id);
      if a.closed then Err(AccountClosedByBank)
      else
        var c := Credit(env.hash, a, amount).value;
        ReplayExtend(env.hash, Log(store, id), c.event);
        assert DistinctIds([Pending(id, a.version, [c.event])]);
        Commit(store, [Pending(id, a.version, [c.event])])
  }

  /** Bank.withdraw: amount first, then the account, then closure, then funds. */
  function Withdraw(env: Env, store: Store, id: AccountId, amount: int): (r: Result<Store, Error>)
    ensures amount <= 0 ==> r == Err(InvalidAmount)
    ensures amount > 0 && GetAccount(env, store, id).Err? ==> r == Err(GetAccount(env, store, id).error)
    ensures amount > 0 && GetAccount(env, store, id).Ok? && GetAccount(env, store, id).value.closed ==>
      r == Err(AccountClosedByBank)
    ensures amount > 0 && GetAccount(env, store, id).Ok? ==>
      var a := GetAccount(env, store, id).value;
      !a.closed && amount > a.balance + a.overdraftLimit ==> r == Err(InsufficientFunds)
    ensures r.Ok? <==>
      && amount > 0
      && GetAccount(env, store, id).Ok?
      && !GetAccount(env, store, id).value.closed
      && amount <= GetAccount(env, store, id).value.balance + GetAccount(env, store, id).value.overdraftLimit
    ensures r.Ok? ==>
      var a := GetAccount(env, store, id).value;
      && Log(r.value, id) == Log(store, id) + [Debited(amount)]
      && GetAccount(env, r.value, id) == Ok(a.(balance := a.balance - amount, version := a.version + 1))
      && a.balance - amount >= -a.overdraftLimit
    ensures r.Ok? ==> forall other :: other != id ==> Log(r.value, other) == Log(store, other)
  {
    if amount <= 0 then Err(InvalidAmount)
    else
      var a :- GetAccount(env, store, id);
      if a.closed then Err(AccountClosedByBank)
      else
        var c :- Debit(env.hash, a, amount);
        ReplayExtend(env.hash, Log(store, id), c.event);
        assert DistinctIds([Pending(id, a.version, [c.event])]);
        Commit(store, [Pending(id, a.version, [c.event])])
  }

  /** Bank.transfer: load the source, then the target; refuse if either is
      closed; debit the source (which checks the amount and the funds), credit
      the target, and save both in one commit.  The two ids must differ. */
  function Transfer(env: Env, store: Store, source: AccountId, target: AccountId, amount: int)
    : (r: Result<Store, Error>)
    requires source != target
    ensures GetAccount(env, store, source).Err? ==> r == Err(GetAccount(env, store, source).error)
    ensures GetAccount(env, store, source).Ok? && GetAccount(env, store, target).Err? ==>
      r == Err(GetAccount(env, store, target).error)
    ensures GetAccount(env, store, source).Ok? && GetAccount(env, store, target).Ok? ==>
      var s := GetAccount(env, store, source).value;
      var t := GetAccount(env, store, target).value;
      && (s.closed || t.closed ==> r == Err(AccountClosedByBank))
      && (!s.closed && !t.closed && amount <= 0 ==> r == Err(InvalidAmount))
      && (!s.closed && !t.closed && 0 < amount && amount > s.balance + s.overdraftLimit ==> r == Err(InsufficientFunds))
      && (r.Ok? <==> !s.closed && !t.closed && 0 < amount <= s.balance + s.overdraftLimit)
    ensures r.Ok? ==>
      var s := GetAccount(env, store, source).value;
      var t := GetAccount(env, store, target).value;
      && GetAccount(env, r.value, source) == Ok(s.(balance := s.balance - amount, version := s.version + 1))
      && GetAccount(env, r.value, target) == Ok(t.(balance := t.balance + amount, version := t.version + 1))
      && GetBalance(env, r.value, source).value + GetBalance(env, r.value, target).value
         == s.balance + t.balance
    ensures r.Ok? ==>
      forall other :: other != source && other != target ==> Log(r.value, other) == Log(store, other)
  {
    var s :- GetAccount(env, store, source);
    var t :- GetAccount(env, store, target);
    if s.closed || t.closed then Err(AccountClosedByBank)
    else
      var d :- Debit(env.hash, s, amount);
      var c := Credit(env.hash, t, amount).value;
      ReplayExtend(env.hash, Log(store, source), d.event);
      ReplayExtend(env.hash, Log(store, target), c.event);
      var batch := [Pending(source, s.version, [d.event]), Pending(target, t.version, [c.event])];
      assert DistinctIds(batch);
      assert forall i :: 0 <= i < |batch| ==> batch[i].id == source || batch[i].id == target;
      Commit(store, batch)
  }

  /** Bank.close_account: the aggregate refuses to close twice. */
  function CloseAccount(env: Env, store: Store, id: AccountId): (r: Result<Store, Error>)
    ensures GetAccount(env, store, id).Err? ==> r == Err(GetAccount(env, store, id).error)
    ensures GetAccount(env, store, id).Ok? && GetAccount(env, store, id).value.closed ==> r == Err(AlreadyClosed)
    ensures r.Ok? <==> GetAccount(env, store, id).Ok? && !GetAccount(env, store, id).value.closed
    ensures r.Ok? ==>
      var a := GetAccount(env, store, id).value;
      && Log(r.value, id) == Log(store, id) + [Closed]
      && GetAccount(env, r.value, id) == Ok(a.(closed := true, version := a.version + 1))
    ensures r.Ok? ==> forall other :: other != id ==> Log(r.value, other) == Log(store, other)
  {
    var a :- GetAccount(env, store, id);
    var c :- Close(env.hash, a);
    ReplayExtend(env.hash, Log(store, id), c.event);
    assert DistinctIds([Pending(id, a.version, [c.event])]);
    Commit(store, [Pending(id, a.version, [c.event])])
  }

  /** Bank.validate_password: a query; fails with BadCredentials exactly when
      the digest of the given password differs from the stored one. */
  function ValidatePassword(env: Env, store: Store, id: AccountId, password: string): (r: Result<(), Error>)
    ensures GetAccount(env, store, id).Err? ==> r == Err(GetAccount(env, store, id).error)
    ensures GetAccount(env, store, id).Ok? ==>
      (r.Ok? <==> env.hash(password) == GetAccount(env, store, id).value.password)
    ensures GetAccount(env, store, id).Ok? && r.Err? ==> r.error == BadCredentials
  {
    var a :- GetAccount(env, store, id);
    if !CheckPassword(env.hash, a, password) then Err(BadCredentials) else Ok(())
  }

  /** Bank.change_password: the aggregate checks the old password; a closed
      account is not refused.  Afterwards exactly the passwords with the new
      password's digest validate. */
  function ChangePassword(env: Env, store: Store, id: AccountId, oldPassword: string, newPassword: string)
    : (r: Result<Store, Error>)
    ensures GetAccount(env, store, id).Err? ==> r == Err(GetAccount(env, store, id).error)
    ensures GetAccount(env, store, id).Ok? ==>
      (r.Ok? <==> ValidatePassword(env, store, id, oldPassword).Ok?)
    ensures GetAccount(env, store, id).Ok? && r.Err? ==> r.error == BadCredentials
    ensures r.Ok? ==>
      var a := GetAccount(env, store, id).value;
      && Log(r.value, id) == Log(store, id) + [PasswordChanged(oldPassword, newPassword)]
      && GetAccount(env, r.value, id) == Ok(a.(password := env.hash(newPassword), version := a.version + 1))
      && ValidatePassword(env, r.value, id, newPassword).Ok?
      && forall p :: ValidatePassword(env, r.value, id, p).Ok? <==> env.hash(p) == env.hash(newPassword)
    ensures r.Ok? ==> forall other :: other != id ==> Log(r.value, other) == Log(store, other)
  {
    var a :- GetAccount(env, store, id);
    var c :- DomainModel.ChangePassword(env.hash, a, oldPassword, newPassword);
    ReplayExtend(env.hash, Log(store, id), c.event);
    assert DistinctIds([Pending(id, a.version, [c.event])]);
    Commit(store, [Pending(id, a.version, [c.event])])
  }

  /** Bank.set_overdraft_limit: a negative limit is refused before the account
      is loaded, then a closed account is refused.  The current balance is not
      compared with the new limit. */
  function SetOverdraftLimit(env: Env, store: Store, id: AccountId, amount: int): (r: Result<Store, Error>)
    ensures amount < 0 ==> r == Err(NegativeOverdraftLimit)
    ensures amount >= 0 && GetAccount(env, store, id).Err? ==> r == Err(GetAccount(env, store, id).error)
    ensures amount >= 0 && GetAccount(env, store, id).Ok? && GetAccount(env, store, id).value.closed ==>
      r == Err(AccountClosedByBank)
    ensures r.Ok? <==> amount >= 0 && GetAccount(env, store, id).Ok? && !GetAccount(env, store, id).value.closed
    ensures r.Ok? ==>
      var a := GetAccount(env, store, id).value;
      && Log(r.value, id) == Log(store, id) + [OverdraftSet(amount)]
      && GetAccount(env, r.value, id) == Ok(a.(overdraftLimit := amount, version := a.version + 1))
      && GetOverdraftLimit(env, r.value, id) == Ok(amount)
    ensures r.Ok? ==> forall other :: other != id ==> Log(r.value, other) == Log(store, other)
  {
    if amount < 0 then Err(NegativeOverdraftLimit)
    else
      var a :- GetAccount(env, store, id);
      if a.closed then Err(AccountClosedByBank)
      else
        var c := DomainModel.SetOverdraftLimit(env.hash, a, amount).value;
        ReplayExtend(env.hash, Log(store, id), c.event);
        assert DistinctIds([Pending(id, a.version, [c.event])]);
        Commit(store, [Pending(id, a.version, [c.event])])
  }

  /** Every operation that loads an account reports an id without history as
      AccountNotFound; for deposits and withdrawals only once the amount is
      valid, for overdraft limits only once the limit is not negative. */
  lemma UnknownIdIsNotFound(env: Env, store: Store, id: AccountId, other: AccountId, amount: int, password: string)
    requires Log(store, id) == [] && id != other
    ensures GetBalance(env, store, id) == Err(AccountNotFound)
    ensures GetOverdraftLimit(env, store, id) == Err(AccountNotFound)
    ensures ValidatePassword(env, store, id, password) == Err(AccountNotFound)
    ensures ChangePassword(env, store, id, password, password) == Err(AccountNotFound)
    ensures CloseAccount(env, store, id) == Err(AccountNotFound)
    ensures amount > 0 ==> Deposit(env, store, id, amount) == Err(AccountNotFound)
    ensures amount > 0 ==> Withdraw(env, store, id, amount) == Err(AccountNotFound)
    ensures amount >= 0 ==> SetOverdraftLimit(env, store, id, amount) == Err(AccountNotFound)
    ensures Transfer(env, store, id, other, amount) == Err(AccountNotFound)
    ensures GetAccount(env, store, other).Ok? ==> Transfer(env, store, other, id, amount) == Err(AccountNotFound)
  {
  }
}
