/** Worked examples of the bank's behaviour, stated for every digest and id
    derivation: transfers, the overdraft boundary, password changes, duplicate
    openings and closed accounts. */
module Scenarios {
  import opened Wrappers
  import opened DomainModel
  import opened EventStore
  import opened ApplicationModel

  /** The account under `id` is open, with the given balance and no overdraft. */
  predicate OpenWith(env: Env, store: Store, id: AccountId, balance: int) {
    var r := GetAccount(env, store, id);
    r.Ok? && !r.value.closed && r.value.balance == balance && r.value.overdraftLimit == 0
  }

  /** Alice holds 20000, Bob 200 and Sue 100: a transfer of 5000 from Alice to
      Bob and then one of 100 from Bob to Sue leave 15000, 5100 and 200; a
      further transfer of 100000 from Alice is refused for insufficient funds. */
  lemma TransferExample(env: Env, store: Store, alice: AccountId, bob: AccountId, sue: AccountId)
    requires alice != bob && bob != sue && alice != sue
    requires OpenWith(env, store, alice, 20000) && OpenWith(env, store, bob, 200)
    requires OpenWith(env, store, sue, 100)
    ensures var first := Transfer(env, store, alice, bob, 5000);
      && first.Ok?
      && var second := Transfer(env, first.value, bob, sue, 100);
         && second.Ok?
         && GetBalance(env, second.value, alice) == Ok(15000)
         && GetBalance(env, second.value, bob) == Ok(5100)
         && GetBalance(env, second.value, sue) == Ok(200)
         && Transfer(env, second.value, alice, bob, 100000) == Err(InsufficientFunds)
  {
  }

  /** Bob holds 200: with a 50000 overdraft limit a withdrawal of 50200 brings
      the balance to exactly -50000, and one more cent (here 100) is refused;
      a negative limit is refused and leaves the limit as it was. */
  lemma OverdraftExample(env: Env, store: Store, bob: AccountId)
    requires OpenWith(env, store, bob, 200)
    ensures var limited := ApplicationModel.SetOverdraftLimit(env, store, bob, 50000);
      && limited.Ok?
      && ApplicationModel.SetOverdraftLimit(env, limited.value, bob, -50000) == Err(NegativeOverdraftLimit)
      && GetOverdraftLimit(env, limited.value, bob) == Ok(50000)
      && var drawn := Withdraw(env, limited.value, bob, 50200);
         && drawn.Ok?
         && GetBalance(env, drawn.value, bob) == Ok(-50000)
         && Withdraw(env, drawn.value, bob, 100) == Err(InsufficientFunds)
  {
  }

  /** Debit boundary: a withdrawal of exactly balance plus limit succeeds and
      leaves the balance at minus the limit; one cent more is refused. */
  lemma DebitBoundary(env: Env, store: Store, id: AccountId)
    requires GetAccount(env, store, id).Ok? && !GetAccount(env, store, id).value.closed
    requires GetAccount(env, store, id).value.balance + GetAccount(env, store, id).value.overdraftLimit > 0
    ensures var a := GetAccount(env, store, id).value;
      && Withdraw(env, store, id, a.balance + a.overdraftLimit + 1) == Err(InsufficientFunds)
      && var r := Withdraw(env, store, id, a.balance + a.overdraftLimit);
         r.Ok? && GetBalance(env, r.value, id) == Ok(-a.overdraftLimit)
  {
  }

  /** Opening with password "alice", changing it to "alice2": afterwards
      "alice2" validates and "alice" no longer does (as long as the two
      digests differ). */
  lemma PasswordExample(env: Env, store: Store, email: string)
    requires Log(store, env.idOf(email)) == []
    requires env.hash("alice") != env.hash("alice2")
    ensures var created := OpenAccount(env, store, "Alice", email, "alice");
      && created.Ok?
      && var (id, s) := created.value;
         && ValidatePassword(env, s, id, "alice").Ok?
         && var changed := ApplicationModel.ChangePassword(env, s, id, "alice", "alice2");
            && changed.Ok?
            && ValidatePassword(env, changed.value, id, "alice2").Ok?
            && ValidatePassword(env, changed.value, id, "alice") == Err(BadCredentials)
  {
  }

  /** Opening the same email twice: the second attempt is a duplicate, and the
      first account is still there as it was opened. */
  lemma DuplicateOpenExample(env: Env, store: Store, email: string)
    requires Log(store, env.idOf(email)) == []
    ensures var first := OpenAccount(env, store, "Alice", email, "alice");
      && first.Ok?
      && OpenAccount(env, first.value.1, "Alice again", email, "other") == Err(DuplicateAccount)
      && GetAccount(env, first.value.1, env.idOf(email)).value.fullName == "Alice"
  {
  }

  /** After an account is closed, transfers from it, withdrawals, deposits and
      new overdraft limits are all refused as closed, and closing it again is
      refused as already closed. */
  lemma ClosedExample(env: Env, store: Store, alice: AccountId, bob: AccountId)
    requires alice != bob
    requires OpenWith(env, store, alice, 20000) && OpenWith(env, store, bob, 200)
    ensures var closed := CloseAccount(env, store, alice);
      && closed.Ok?
      && Transfer(env, closed.value, alice, bob, 5000) == Err(AccountClosedByBank)
      && Withdraw(env, closed.value, alice, 100) == Err(AccountClosedByBank)
      && Deposit(env, closed.value, alice, 100000) == Err(AccountClosedByBank)
      && ApplicationModel.SetOverdraftLimit(env, closed.value, alice, 50000) == Err(AccountClosedByBank)
      && CloseAccount(env, closed.value, alice) == Err(AlreadyClosed)
      && GetBalance(env, closed.value, alice) == Ok(20000)
      && GetBalance(env, closed.value, bob) == Ok(200)
      && GetOverdraftLimit(env, closed.value, alice) == Ok(0)
  {
  }

  /** The overdraft limit is not compared with the balance when it is set:
      after drawing 200 cents below zero under a limit of 200, lowering the
      limit to 0 is accepted, and the balance is then below minus the limit. */
  lemma LimitLoweredBelowBalance(env: Env, store: Store, id: AccountId)
    requires OpenWith(env, store, id, 0)
    ensures var raised := ApplicationModel.SetOverdraftLimit(env, store, id, 200);
      && raised.Ok?
      && var drawn := Withdraw(env, raised.value, id, 200);
         && drawn.Ok?
         && var lowered := ApplicationModel.SetOverdraftLimit(env, drawn.value, id, 0);
            && lowered.Ok?
            && var a := GetAccount(env, lowered.value, id).value;
               a.balance == -200 && a.overdraftLimit == 0 && a.balance < -a.overdraftLimit
  {
  }
}
