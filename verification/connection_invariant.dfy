/**
 * What holds over any sequence of calls on a BaseConnection: the driver log records at most
 * one open connection at a time (the current one, when IsConnectionOpened()), commands are
 * issued only on an open connection, and Commit/Rollback only end a transaction that was
 * begun and not yet ended.
 */
module ConnectionInvariant {
  import opened Wrappers
  import opened ConnectionModel

  /** One protected call on a BaseConnection, with the driver's answers it depends on. */
  datatype Call =
    | ConnectCall(connectionString: Option<string>, response: OpenResponse)
    | DisconnectCall
    | BeginTransactionCall
    | CommitCall
    | RollbackCall
    | ExecuteSQLCall(sql: string)
    | ExecuteReaderCall(sql: string, rows: seq<Row>)
    | ExecuteSQLReturnIdCall(sql: string, rows: seq<Row>)

  /** The state after a call and the error it raised, if any. */
  datatype Outcome = Outcome(state: State, error: Option<Error>)

  function Forget<T>(t: Step<T>): Outcome
  {
    Outcome(t.state, if t.result.Failure? then Some(t.result.error) else None)
  }

  function Apply(s: State, c: Call): Outcome
  {
    match c
    case ConnectCall(cs, response) => Forget(Connect(s, cs, response))
    case DisconnectCall => Outcome(Disconnect(s), None)
    case BeginTransactionCall => Forget(BeginTransaction(s))
    case CommitCall => Forget(Commit(s))
    case RollbackCall => Forget(Rollback(s))
    case ExecuteSQLCall(sql) => Forget(ExecuteSQL(s, sql))
    case ExecuteReaderCall(sql, rows) => Forget(ExecuteReader(s, sql, rows))
    case ExecuteSQLReturnIdCall(sql, rows) => Forget(ExecuteSQLReturnId(s, sql, rows))
  }

  /** The calls one after another; an exception raised by one is caught by the caller before the next. */
  function Run(s: State, calls: seq<Call>): State
    decreases |calls|
  {
    if calls == [] then s else Run(Apply(s, calls[0]).state, calls[1..])
  }

  /** The errors raised by the class's own guards, before any driver call. */
  predicate IsGuardError(e: Error)
  {
    e == ArgumentNull || e == NoOpenedConnection || e == NoOpenedTransaction
  }

  /** A call rejected by one of the guards changes nothing at all. */
  lemma GuardFailureChangesNothing(s: State, c: Call)
    requires Apply(s, c).error.Some? && IsGuardError(Apply(s, c).error.value)
    ensures Apply(s, c).state == s
  {
  }

  // ---------------------------------------------------------------------------
  // Reading the log

  function Last(log: seq<Action>): Action
    requires log != []
  {
    log[|log| - 1]
  }

  function Init(log: seq<Action>): seq<Action>
    requires log != []
  {
    log[..|log| - 1]
  }

  /** The connections the driver has opened and not yet closed. */
  ghost function OpenConnections(log: seq<Action>): set<nat>
    decreases |log|
  {
    if log == [] then {}
    else
      var before := OpenConnections(Init(log));
      match Last(log)
      case Opened(c, _) => before + {c}
      case Closed(c) => before - {c}
      case _ => before
  }

  /** The transactions ever begun. */
  ghost function Begun(log: seq<Action>): set<TxHandle>
    decreases |log|
  {
    if log == [] then {}
    else
      var before := Begun(Init(log));
      match Last(log)
      case Began(t) => before + {t}
      case _ => before
  }

  /** The transactions on which Commit or Rollback was called. */
  ghost function Ended(log: seq<Action>): set<TxHandle>
    decreases |log|
  {
    if log == [] then {}
    else
      var before := Ended(Init(log));
      match Last(log)
      case Committed(t) => before + {t}
      case RolledBack(t) => before + {t}
      case _ => before
  }

  /**
   * The transactions still in progress at the server: begun, not committed or rolled back,
   * and their connection not closed (closing a connection rolls its transaction back).
   */
  ghost function Pending(log: seq<Action>): set<TxHandle>
    decreases |log|
  {
    if log == [] then {}
    else
      var before := Pending(Init(log));
      match Last(log)
      case Began(t) => before + {t}
      case Committed(t) => before - {t}
      case RolledBack(t) => before - {t}
      case Closed(c) => set t | t in before && t.connId != c
      case _ => before
  }

  /** Every identity the action mentions is below n. */
  ghost predicate ActionBelow(a: Action, n: nat)
  {
    match a
    case Opened(c, _) => c < n
    case OpenFailed(c, _) => c < n
    case Closed(c) => c < n
    case Began(t) => t.id < n && t.connId < n
    case Committed(t) => t.id < n && t.connId < n
    case RolledBack(t) => t.id < n && t.connId < n
    case Issued(_, cmd) => cmd.connId < n
  }

  ghost predicate IdsBelow(log: seq<Action>, n: nat)
  {
    forall i :: 0 <= i < |log| ==> ActionBelow(log[i], n)
  }

  /** What the driver protocol allows after the actions `before`. */
  ghost predicate Permitted(before: seq<Action>, a: Action)
  {
    match a
    case Opened(c, _) => OpenConnections(before) == {} && IdsBelow(before, c)
    case OpenFailed(c, _) => OpenConnections(before) == {} && IdsBelow(before, c)
    case Closed(c) => c in OpenConnections(before)
    case Began(t) => t.connId in OpenConnections(before) && IdsBelow(before, t.id)
    case Committed(t) => EndPermitted(before, t)
    case RolledBack(t) => EndPermitted(before, t)
    case Issued(_, cmd) => cmd.connId in OpenConnections(before)
  }

  /**
   * Commit or Rollback is called on a transaction that was begun and not yet ended, and
   * that is either in progress or belongs to a connection that is no longer open.
   */
  ghost predicate EndPermitted(before: seq<Action>, t: TxHandle)
  {
    t in Begun(before) && t !in Ended(before) && (t in Pending(before) || t.connId !in OpenConnections(before))
  }

  /**
   * Every action was permitted when it was made: a connection is opened only when none is
   * open and with a fresh identity, only an open connection is closed, a transaction is begun
   * on an open connection, a transaction is ended at most once, and commands go to an open connection.
   */
  ghost predicate LogWellFormed(log: seq<Action>)
    decreases |log|
  {
    log == [] || (LogWellFormed(Init(log)) && Permitted(Init(log), Last(log)))
  }

  /** The connection set the log should show for a state. */
  function CurrentOpen(s: State): set<nat>
  {
    if s.IsConnectionOpened() then {s.connection.value.id} else {}
  }

  ghost predicate Invariant(s: State)
  {
    && (s.connection.Some? ==> s.connection.value.id < s.nextHandle)
    && (s.transaction.Some? ==> s.transaction.value.id < s.nextHandle && s.transaction.value.connId < s.nextHandle)
    && IdsBelow(s.log, s.nextHandle)
    && LogWellFormed(s.log)
    && OpenConnections(s.log) == CurrentOpen(s)
    && (forall t :: t in Begun(s.log) ==> t.id < s.nextHandle)
    && Ended(s.log) <= Begun(s.log)
    && (forall t :: t in Pending(s.log) ==> t.connId in OpenConnections(s.log))
    && (s.transaction.Some? ==> HeldTransaction(s.log, s.transaction.value))
  }

  /** The held transaction was begun, is not ended, and is in progress exactly while its connection is open. */
  ghost predicate HeldTransaction(log: seq<Action>, t: TxHandle)
  {
    t in Begun(log) && t !in Ended(log) && (t in Pending(log) <==> t.connId in OpenConnections(log))
  }

  // ---------------------------------------------------------------------------
  // Appending one action

  lemma AppendOne(log: seq<Action>, a: Action)
    ensures Init(log + [a]) == log && Last(log + [a]) == a
  {
    assert (log + [a])[..|log|] == log;
  }

  /** The effect of one more action on the log's summaries. */
  lemma Extend(s: State, a: Action, n: nat)
    requires Invariant(s) && Permitted(s.log, a) && ActionBelow(a, n) && s.nextHandle <= n
    ensures LogWellFormed(s.log + [a])
    ensures IdsBelow(s.log + [a], n)
    ensures OpenConnections(s.log + [a]) ==
      match a
      case Opened(c, _) => OpenConnections(s.log) + {c}
      case Closed(c) => OpenConnections(s.log) - {c}
      case _ => OpenConnections(s.log)
    ensures Pending(s.log + [a]) ==
      match a
      case Began(t) => Pending(s.log) + {t}
      case Committed(t) => Pending(s.log) - {t}
      case RolledBack(t) => Pending(s.log) - {t}
      case Closed(c) => set t | t in Pending(s.log) && t.connId != c
      case _ => Pending(s.log)
    ensures Begun(s.log + [a]) == if a.Began? then Begun(s.log) + {a.tx} else Begun(s.log)
    ensures Ended(s.log + [a]) == if a.Committed? || a.RolledBack? then Ended(s.log) + {a.tx} else Ended(s.log)
  {
    AppendOne(s.log, a);
    var log' := s.log + [a];
    forall i | 0 <= i < |log'| ensures ActionBelow(log'[i], n) {
      if i < |s.log| { assert log'[i] == s.log[i]; }
    }
  }

  // ---------------------------------------------------------------------------
  // Each operation keeps the invariant

  /** Closing the open connection keeps the invariant and leaves no connection open at the driver. */
  lemma CloseKeepsInvariant(s: State)
    requires Invariant(s) && s.IsConnectionOpened()
    ensures Invariant(CloseConnection(s)) && OpenConnections(CloseConnection(s).log) == {}
    ensures Pending(CloseConnection(s).log) == {}
  {
    Extend(s, Closed(s.connection.value.id), s.nextHandle);
  }

  /** Building and opening a new connection when none is open keeps the invariant. */
  lemma OpenKeepsInvariant(s: State, cs: string, response: OpenResponse)
    requires Invariant(s) && !s.IsConnectionOpened() && cs != ""
    ensures Invariant(Connect(s, Some(cs), response).state)
  {
    if response != StringRejected {
      var id := s.nextHandle;
      var opens := response == OpenSucceeds;
      var a := if opens then Opened(id, cs) else OpenFailed(id, cs);
      var t := s.(connection := Some(ConnHandle(id, cs, opens)), nextHandle := id + 1, log := s.log + [a]);
      assert Connect(s, Some(cs), response).state == t;
      Extend(s, a, id + 1);
      assert OpenConnections(t.log) == CurrentOpen(t);
      assert Pending(t.log) == Pending(s.log) && Begun(t.log) == Begun(s.log) && Ended(t.log) == Ended(s.log);
    }
  }

  lemma ConnectKeepsInvariant(s: State, cs: Option<string>, response: OpenResponse)
    requires Invariant(s)
    ensures Invariant(Connect(s, cs, response).state)
  {
    if !IsNullOrEmpty(cs) {
      if s.IsConnectionOpened() {
        CloseKeepsInvariant(s);
        OpenKeepsInvariant(CloseConnection(s), cs.value, response);
        assert Connect(s, cs, response) == Connect(CloseConnection(s), cs, response);
      } else {
        OpenKeepsInvariant(s, cs.value, response);
      }
    }
  }

  lemma DisconnectKeepsInvariant(s: State)
    requires Invariant(s)
    ensures Invariant(Disconnect(s))
  {
    if s.IsConnectionOpened() {
      CloseKeepsInvariant(s);
    }
  }

  lemma BeginTransactionKeepsInvariant(s: State)
    requires Invariant(s)
    ensures Invariant(BeginTransaction(s).state)
  {
    if s.IsConnectionOpened() {
      var tx := TxHandle(s.nextHandle, s.connection.value.id);
      Extend(s, Began(tx), s.nextHandle + 1);
    }
  }

  lemma EndTransactionKeepsInvariant(s: State, commit: bool)
    requires Invariant(s)
    ensures Invariant(EndTransaction(s, commit).state)
  {
    if s.IsConnectionOpened() && s.transaction.Some? {
      var tx := s.transaction.value;
      Extend(s, if commit then Committed(tx) else RolledBack(tx), s.nextHandle);
    }
  }

  lemma IssueKeepsInvariant(s: State, kind: CommandKind, text: string)
    requires Invariant(s) && s.IsConnectionOpened()
    ensures Invariant(Issue(s, kind, text))
  {
    Extend(s, Issued(kind, Command(s.connection.value.id, s.transaction, text)), s.nextHandle);
  }

  lemma ApplyKeepsInvariant(s: State, c: Call)
    requires Invariant(s)
    ensures Invariant(Apply(s, c).state)
  {
    match c
    case ConnectCall(cs, response) => ConnectKeepsInvariant(s, cs, response);
    case DisconnectCall => DisconnectKeepsInvariant(s);
    case BeginTransactionCall => BeginTransactionKeepsInvariant(s);
    case CommitCall => EndTransactionKeepsInvariant(s, true);
    case RollbackCall => EndTransactionKeepsInvariant(s, false);
    case ExecuteSQLCall(sql) =>
      if s.IsConnectionOpened() { IssueKeepsInvariant(s, NonQuery, sql); }
    case ExecuteReaderCall(sql, _) =>
      if s.IsConnectionOpened() { IssueKeepsInvariant(s, Reader, sql); }
    case ExecuteSQLReturnIdCall(sql, _) =>
      if s.IsConnectionOpened() { IssueKeepsInvariant(s, Reader, sql + LastInsertIdQuery); }
  }

  lemma InitialInvariant()
    ensures Invariant(Initial())
  {
  }

  /** Every sequence of calls keeps the invariant. */
  lemma {:induction false} RunKeepsInvariant(s: State, calls: seq<Call>)
    requires Invariant(s)
    ensures Invariant(Run(s, calls))
    decreases |calls|
  {
    if calls != [] {
      ApplyKeepsInvariant(s, calls[0]);
      RunKeepsInvariant(Apply(s, calls[0]).state, calls[1..]);
    }
  }

  /**
   * After any sequence of calls on a new object, at most one connection is open at the
   * driver, it is the current Connection when IsConnectionOpened(), and the driver log
   * respects the protocol of LogWellFormed.
   */
  lemma AtMostOneOpenConnection(calls: seq<Call>)
    ensures var s := Run(Initial(), calls);
      && |OpenConnections(s.log)| <= 1
      && (s.IsConnectionOpened() ==> OpenConnections(s.log) == {s.connection.value.id})
      && (!s.IsConnectionOpened() <==> OpenConnections(s.log) == {})
      && LogWellFormed(s.log)
      && (forall t :: t in Pending(s.log) ==> t.connId in OpenConnections(s.log))
      && (s.transaction.Some? ==> HeldTransaction(s.log, s.transaction.value))
  {
    InitialInvariant();
    RunKeepsInvariant(Initial(), calls);
  }

  /**
   * Reconnecting while a transaction is held closes its connection, so the transaction is no
   * longer in progress, though the class still holds it and will commit or roll it back.
   */
  lemma ReconnectEndsPendingTransaction(s: State, cs: string)
    requires Invariant(s) && s.IsConnectionOpened() && s.transaction.Some?
    requires cs != ""
    ensures var r := Connect(s, Some(cs), OpenSucceeds).state;
      && r.transaction == s.transaction
      && s.transaction.value !in Pending(r.log)
      && s.transaction.value.connId !in OpenConnections(r.log)
      && EndTransaction(r, true).result == Success(())
  {
    ConnectKeepsInvariant(s, Some(cs), OpenSucceeds);
  }

  // ---------------------------------------------------------------------------
  // Each transaction is ended at most once

  lemma PrefixStep(log: seq<Action>, j: nat)
    requires 0 < j <= |log|
    ensures Init(log[..j]) == log[..j - 1] && Last(log[..j]) == log[j - 1]
  {
    assert log[..j][..j - 1] == log[..j - 1];
  }

  lemma {:induction false} WellFormedPrefix(log: seq<Action>, j: nat)
    requires LogWellFormed(log) && j <= |log|
    ensures LogWellFormed(log[..j])
    decreases |log| - j
  {
    if j < |log| {
      assert Init(log)[..j] == log[..j];
      WellFormedPrefix(Init(log), j);
    } else {
      assert log[..j] == log;
    }
  }

  lemma {:induction false} EndedGrows(log: seq<Action>, i: nat, j: nat)
    requires i <= j <= |log|
    ensures Ended(log[..i]) <= Ended(log[..j])
    decreases j - i
  {
    if i < j {
      EndedGrows(log, i, j - 1);
      PrefixStep(log, j);
    }
  }

  /** In a well-formed log no transaction is committed or rolled back twice. */
  lemma EndsAtMostOnce(log: seq<Action>, i: nat, j: nat)
    requires LogWellFormed(log) && i < j < |log|
    requires (log[i].Committed? || log[i].RolledBack?) && (log[j].Committed? || log[j].RolledBack?)
    ensures log[i].tx != log[j].tx
  {
    WellFormedPrefix(log, j + 1);
    PrefixStep(log, j + 1);
    PrefixStep(log, i + 1);
    EndedGrows(log, i + 1, j);
  }

  /** After any sequence of calls on a new object, no transaction was committed or rolled back twice. */
  lemma EachTransactionEndsOnce(calls: seq<Call>, i: nat, j: nat)
    requires var log := Run(Initial(), calls).log;
      i < j < |log| && (log[i].Committed? || log[i].RolledBack?) && (log[j].Committed? || log[j].RolledBack?)
    ensures Run(Initial(), calls).log[i].tx != Run(Initial(), calls).log[j].tx
  {
    AtMostOneOpenConnection(calls);
    EndsAtMostOnce(Run(Initial(), calls).log, i, j);
  }
}
