/** Reconstruction of an account from its history: the aggregate's state is
    never stored, it is the left fold of `Apply` over the account's events, in
    the order they were recorded. */
module Reconstruction {
  import opened Wrappers
  import opened DomainModel

  /** Reference definitions of what a history says about the money and the
      credentials, independent of `Apply`. */

  /** Credits minus debits over the history. */
  function NetFlow(events: seq<Event>): int
    decreases |events|
  {
    if events == [] then 0
    else
      var delta := match events[0]
        case Credited(amount) => amount
        case Debited(amount) => -amount
        case _ => 0;
      delta + NetFlow(events[1..])
  }

  /** The most recently set overdraft limit, or `limit` if none is set. */
  function LimitAfter(limit: int, events: seq<Event>): int
    decreases |events|
  {
    if events == [] then limit
    else LimitAfter(if events[0].OverdraftSet? then events[0].amount else limit, events[1..])
  }

  /** The digest of the most recently changed password, or `digest` if the
      password was never changed. */
  function DigestAfter(hash: Hasher, digest: string, events: seq<Event>): string
    decreases |events|
  {
    if events == [] then digest
    else DigestAfter(hash, if events[0].PasswordChanged? then hash(events[0].newPassword) else digest, events[1..])
  }

  /** Fold `Apply` over `events`, starting from `st`; the first handler that
      raises stops the fold with its error. */
  function Fold(hash: Hasher, st: Option<Account>, events: seq<Event>): (r: Result<Option<Account>, Error>)
    decreases |events|
    ensures r.Ok? ==> Version(r.value) == Version(st) + |events|
    ensures r.Ok? && events != [] ==> r.value.Some?
    ensures st.Some? && r.Ok? ==>
      && r.value.Some?
      && r.value.value.id == st.value.id
      && r.value.value.fullName == st.value.fullName
      && r.value.value.email == st.value.email
      && (forall i :: 0 <= i < |events| ==> !events[i].Opened?)
      && r.value.value.balance == st.value.balance + NetFlow(events)
      && r.value.value.overdraftLimit == LimitAfter(st.value.overdraftLimit, events)
      && r.value.value.password == DigestAfter(hash, st.value.password, events)
    ensures r.Err? ==> r.error != AccountNotFound && r.error != Conflict
  {
    if events == [] then Ok(st)
    else
      var a :- Apply(hash, st, events[0]);
      Fold(hash, Some(a), events[1..])
  }

  /** Load an account from its history: no history means no account, and a
      history must start with `Opened` (and contain no other). */
  function Replay(hash: Hasher, events: seq<Event>): (r: Result<Account, Error>)
    ensures r == Err(AccountNotFound) <==> events == []
    ensures events != [] && !events[0].Opened? ==> r == Err(CorruptHistory)
    ensures r.Ok? ==>
      && events[0].Opened?
      && r.value.id == events[0].id
      && r.value.fullName == events[0].fullName
      && r.value.email == events[0].email
      && r.value.version == |events|
      && (forall i :: 0 < i < |events| ==> !events[i].Opened?)
      && r.value.balance == NetFlow(events)
      && r.value.overdraftLimit == LimitAfter(0, events)
      && r.value.password == DigestAfter(hash, events[0].password, events)
    ensures r.Err? ==> r.error != Conflict
  {
    match Fold(hash, None, events)
    case Err(e) => Err(e)
    case Ok(None) => Err(AccountNotFound)
    case Ok(Some(a)) =>
      assert forall i :: 0 < i < |events| ==> events[i] == events[1..][i - 1];
      Ok(a)
  }

  /** Replaying a history in two parts gives the same result as replaying it
      at once. */
  lemma {:induction false} FoldConcat(hash: Hasher, st: Option<Account>, xs: seq<Event>, ys: seq<Event>)
    ensures Fold(hash, st, xs + ys) ==
      match Fold(hash, st, xs)
      case Err(e) => Err(e)
      case Ok(s) => Fold(hash, s, ys)
    decreases |xs|
  {
    if xs == [] {
      assert xs + ys == ys;
    } else {
      assert (xs + ys)[0] == xs[0];
      assert (xs + ys)[1..] == xs[1..] + ys;
      match Apply(hash, st, xs[0])
      case Err(e) =>
      case Ok(a) =>
        FoldConcat(hash, Some(a), xs[1..], ys);
    }
  }

  /** Replaying a history extended by one event yields exactly what that
      event's handler yields on the replayed state: a successful command's
      event reproduces its new state, and a refused one could not be replayed. */
  lemma ReplayExtend(hash: Hasher, log: seq<Event>, e: Event)
    requires log == [] || Replay(hash, log).Ok?
    ensures Replay(hash, log + [e]) ==
      Apply(hash, if log == [] then None else Some(Replay(hash, log).value), e)
  {
    FoldConcat(hash, None, log, [e]);
    if log != [] {
      var a := Replay(hash, log).value;
      assert Fold(hash, None, log) == Ok(Some(a));
      assert [e][1..] == [];
    } else {
      assert log + [e] == [e];
      assert [e][1..] == [];
    }
  }

  /** From a closed state only password changes and overdraft limits can be
      replayed, and the state stays closed with the same balance. */
  lemma {:induction false} FoldFromClosed(hash: Hasher, a: Account, more: seq<Event>)
    requires a.closed
    requires Fold(hash, Some(a), more).Ok?
    ensures var b := Fold(hash, Some(a), more).value.value;
      b.closed && b.balance == a.balance
    ensures forall i :: 0 <= i < |more| ==> more[i].PasswordChanged? || more[i].OverdraftSet?
    decreases |more|
  {
    if more != [] {
      ClosedAcceptsOnlyPasswordOrLimit(hash, a, more[0]);
      var b := Apply(hash, Some(a), more[0]).value;
      FoldFromClosed(hash, b, more[1..]);
      assert forall i :: 0 < i < |more| ==> more[i] == more[1..][i - 1];
    }
  }

  /** Closing is terminal: whatever is replayed after an account was closed,
      it is still closed, its balance has not moved, and every later event is
      a password change or an overdraft limit. */
  lemma ClosedIsTerminal(hash: Hasher, log: seq<Event>, more: seq<Event>)
    requires Replay(hash, log).Ok? && Replay(hash, log).value.closed
    requires Replay(hash, log + more).Ok?
    ensures Replay(hash, log + more).value.closed
    ensures Replay(hash, log + more).value.balance == Replay(hash, log).value.balance
    ensures forall i :: 0 <= i < |more| ==> more[i].PasswordChanged? || more[i].OverdraftSet?
  {
    var a := Replay(hash, log).value;
    FoldConcat(hash, None, log, more);
    assert Fold(hash, None, log) == Ok(Some(a));
    FoldFromClosed(hash, a, more);
  }

  /** Bank-level password check against a replayed account: a password is
      accepted exactly when its digest is that of the most recently set
      password (the opening digest if it was never changed). */
  lemma PasswordFollowsHistory(hash: Hasher, log: seq<Event>, password: string)
    requires Replay(hash, log).Ok?
    ensures CheckPassword(hash, Replay(hash, log).value, password) <==>
      hash(password) == DigestAfter(hash, log[0].password, log)
  {
  }
}
