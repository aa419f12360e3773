/**
 * The state machine of class BaseConnection (BaseConnection.cs) as pure functions.
 *
 * The class has three fields: `Connection` (a MySqlConnection or null), `Transaction`
 * (a MySqlTransaction or null) and `Command` (the last MySqlCommand built). The driver
 * objects are modelled as values carrying an identity taken from a counter that stands
 * for `new`, and every call into the driver is recorded in a log of actions. Each
 * operation maps a state to a new state and a result (a value or the raised error).
 */
module ConnectionModel {
  import opened Wrappers
  import opened Coercion

  /** A MySqlConnection object: its identity, the string it was built from, and whether State == Open. */
  datatype ConnHandle = ConnHandle(id: nat, connectionString: string, open: bool)

  /** A MySqlTransaction object and the connection it was begun on. */
  datatype TxHandle = TxHandle(id: nat, connId: nat)

  /** A MySqlCommand: bound to a connection, to a transaction or none (autocommit), with its text. */
  datatype Command = Command(connId: nat, transaction: Option<TxHandle>, text: string)

  datatype CommandKind = NonQuery | Reader

  /** The calls into the driver that the class makes. */
  datatype Action =
    | Opened(conn: nat, connectionString: string)      // new MySqlConnection(cs) then Open() succeeded
    | OpenFailed(conn: nat, connectionString: string)  // Open() threw
    | Closed(conn: nat)                                // Connection.Close()
    | Began(tx: TxHandle)                              // Connection.BeginTransaction()
    | Committed(tx: TxHandle)                          // Transaction.Commit()
    | RolledBack(tx: TxHandle)                         // Transaction.Rollback()
    | Issued(kind: CommandKind, command: Command)      // ExecuteNonQuery() or ExecuteReader()

  /** The errors an operation can raise. */
  datatype Error =
    | ArgumentNull                // ArgumentNullException: null or empty connection string
    | NoOpenedConnection          // MySqlOpenedConnectionException
    | NoOpenedTransaction         // MySqlOpenedTransactionException
    | InvalidConnectionString     // raised by the MySqlConnection constructor
    | OpenError                   // raised by MySqlConnection.Open (server, network, credentials)
    | ColumnNotFound              // reader["id"] on a result without an `id` column
    | Conversion(reason: ConversionError)  // raised by ReturnConvertedValue
  {
    /**
     * The string the class passes to the constructor of the exception it raises. For the two
     * exceptions of its own this is the message; ArgumentNullException(string) takes it as the
     * parameter name, and .NET composes the message around it.
     */
    function ConstructorArgument(): (a: Option<string>)
      ensures a.Some? <==> this == ArgumentNull || this == NoOpenedConnection || this == NoOpenedTransaction
    {
      match this
      case ArgumentNull => Some("The connection string is null or empty.")
      case NoOpenedConnection => Some("There are no opened connections.")
      case NoOpenedTransaction => Some("There are no opened transactions.")
      case _ => None
    }
  }

  /** How the driver answers `new MySqlConnection(cs)` followed by `Open()`. */
  datatype OpenResponse =
    | OpenSucceeds
    | OpenThrows       // the object is built and assigned, then Open() throws
    | StringRejected   // the constructor throws; nothing is assigned

  /** One row of a result set, by column name. */
  type Row = map<string, RawValue>

  /** The fields of a BaseConnection, the identity counter and the ghost log of driver calls. */
  datatype State = State(
    connection: Option<ConnHandle>,
    transaction: Option<TxHandle>,
    command: Option<Command>,
    nextHandle: nat,
    log: seq<Action>)
  {
    /** IsConnectionOpened(): Connection != null && Connection.State == Open. */
    predicate IsConnectionOpened()
    {
      connection.Some? && connection.value.open
    }
  }

  /** The state of a freshly constructed object: every field null. */
  function Initial(): State
  {
    State(None, None, None, 0, [])
  }

  /** A new state and what the operation returned or raised. */
  datatype Step<+T> = Step(state: State, result: Result<T, Error>)

  /** String.IsNullOrEmpty, with None for a null string. */
  predicate IsNullOrEmpty(s: Option<string>)
  {
    s.None? || s.value == ""
  }

  /** The query appended by ExecuteSQLReturnId. */
  const LastInsertIdQuery: string := "; SELECT LAST_INSERT_ID() as id"

  /** Connection.Close() on the open connection; the object stays referenced. */
  function CloseConnection(s: State): (t: State)
    requires s.IsConnectionOpened()
    ensures !t.IsConnectionOpened() && t.connection.Some? && t.connection.value.id == s.connection.value.id
    ensures t.transaction == s.transaction && t.command == s.command && t.nextHandle == s.nextHandle
  {
    s.(connection := Some(s.connection.value.(open := false)),
       log := s.log + [Closed(s.connection.value.id)])
  }

  /** Connect(connectionString): close the open connection, then build and open a new one. */
  function Connect(s: State, connectionString: Option<string>, response: OpenResponse): (t: Step<()>)
    ensures t.result.Success? <==> !IsNullOrEmpty(connectionString) && response == OpenSucceeds
    ensures t.result.Success? ==> t.state.IsConnectionOpened()
    ensures t.state.transaction == s.transaction && t.state.command == s.command
  {
    if IsNullOrEmpty(connectionString) then
      Step(s, Failure(ArgumentNull))
    else
      var cs := connectionString.value;
      var closed := if s.IsConnectionOpened() then CloseConnection(s) else s;
      var id := closed.nextHandle;
      match response
      case StringRejected =>
        Step(closed, Failure(InvalidConnectionString))
      case OpenThrows =>
        Step(closed.(connection := Some(ConnHandle(id, cs, false)), nextHandle := id + 1,
                     log := closed.log + [OpenFailed(id, cs)]),
             Failure(OpenError))
      case OpenSucceeds =>
        Step(closed.(connection := Some(ConnHandle(id, cs, true)), nextHandle := id + 1,
                     log := closed.log + [Opened(id, cs)]),
             Success(()))
  }

  /** Disconnect(): close the open connection and drop the reference; otherwise do nothing. */
  function Disconnect(s: State): (t: State)
    ensures !t.IsConnectionOpened()
    ensures t.transaction == s.transaction && t.command == s.command && t.nextHandle == s.nextHandle
  {
    if s.IsConnectionOpened() then CloseConnection(s).(connection := None) else s
  }

  /** BeginTransaction(): begin a transaction on the open connection and keep it. */
  function BeginTransaction(s: State): (t: Step<()>)
    ensures t.result.Success? <==> s.IsConnectionOpened()
    ensures t.state.connection == s.connection && t.state.command == s.command
    ensures t.result.Success? ==>
      s.connection.Some? && t.state.transaction.Some? && t.state.transaction.value.connId == s.connection.value.id
  {
    if !s.IsConnectionOpened() then
      Step(s, Failure(NoOpenedConnection))
    else
      var tx := TxHandle(s.nextHandle, s.connection.value.id);
      Step(s.(transaction := Some(tx), nextHandle := s.nextHandle + 1, log := s.log + [Began(tx)]),
           Success(()))
  }

  /** Commit() and Rollback(), which differ only in the driver call they make. */
  function EndTransaction(s: State, commit: bool): (t: Step<()>)
    ensures t.result.Success? <==> s.IsConnectionOpened() && s.transaction.Some?
    ensures t.result.Success? ==> t.state.transaction.None?
    ensures t.result.Failure? ==> t.state == s
    ensures t.state.connection == s.connection && t.state.command == s.command
  {
    if !s.IsConnectionOpened() then
      Step(s, Failure(NoOpenedConnection))
    else if s.transaction.None? then
      Step(s, Failure(NoOpenedTransaction))
    else
      var tx := s.transaction.value;
      Step(s.(transaction := None, log := s.log + [if commit then Committed(tx) else RolledBack(tx)]),
           Success(()))
  }

  function Commit(s: State): (t: Step<()>)
    ensures t.result.Success? ==> s.transaction.Some? && t.state.log == s.log + [Committed(s.transaction.value)]
  {
    EndTransaction(s, true)
  }

  function Rollback(s: State): (t: Step<()>)
    ensures t.result.Success? ==> s.transaction.Some? && t.state.log == s.log + [RolledBack(s.transaction.value)]
  {
    EndTransaction(s, false)
  }

  /** Build a command on the current connection and transaction, keep it in `Command` and run it. */
  function Issue(s: State, kind: CommandKind, text: string): (t: State)
    requires s.IsConnectionOpened()
    ensures t.connection == s.connection && t.transaction == s.transaction && t.nextHandle == s.nextHandle
    ensures t.command == Some(Command(s.connection.value.id, s.transaction, text))
    ensures t.log == s.log + [Issued(kind, t.command.value)]
  {
    var cmd := Command(s.connection.value.id, s.transaction, text);
    s.(command := Some(cmd), log := s.log + [Issued(kind, cmd)])
  }

  /** ExecuteSQL(sql): run a statement that returns no rows. */
  function ExecuteSQL(s: State, sql: string): (t: Step<()>)
    ensures t.result.Success? <==> s.IsConnectionOpened()
    ensures t.state.connection == s.connection && t.state.transaction == s.transaction
  {
    if !s.IsConnectionOpened() then Step(s, Failure(NoOpenedConnection))
    else Step(Issue(s, NonQuery, sql), Success(()))
  }

  /** ExecuteReader(sql): run a query; `rows` is what the server answers, handed back as the reader. */
  function ExecuteReader(s: State, sql: string, rows: seq<Row>): (t: Step<seq<Row>>)
    ensures t.result.Success? <==> s.IsConnectionOpened()
    ensures t.result.Success? ==> t.result.value == rows
    ensures t.state.connection == s.connection && t.state.transaction == s.transaction
  {
    if !s.IsConnectionOpened() then Step(s, Failure(NoOpenedConnection))
    else Step(Issue(s, Reader, sql), Success(rows))
  }

  /** reader["id"] converted by ReturnConvertedValue<long>. */
  function ConvertId(row: Row): (r: Result<int, Error>)
    ensures r.Success? ==> Int64.Represents(r.value)
    ensures r.Failure? ==> r.error == ColumnNotFound || r.error.Conversion?
  {
    if "id" !in row then Failure(ColumnNotFound)
    else match ReturnConvertedValue(row["id"], Int64)
      case Success(v) => Success(v)
      case Failure(e) => Failure(Conversion(e))
  }

  /** The loop `while (reader.Read()) id = ...;` over the rows still to be read, from the current id. */
  function ScanIds(rows: seq<Row>, id: int): (r: Result<int, Error>)
    ensures r.Success? && rows != [] ==> Int64.Represents(r.value)
    ensures r.Failure? ==> r.error == ColumnNotFound || r.error.Conversion?
    decreases |rows|
  {
    if rows == [] then Success(id)
    else match ConvertId(rows[0])
      case Failure(e) => Failure(e)
      case Success(v) => ScanIds(rows[1..], v)
  }

  /** ExecuteSQLReturnId(sql): run `sql` batched with the last-insert-id query and read the id. */
  function ExecuteSQLReturnId(s: State, sql: string, rows: seq<Row>): (t: Step<int>)
    ensures !s.IsConnectionOpened() ==> t == Step(s, Failure(NoOpenedConnection))
    ensures t.result.Success? ==> Int64.Represents(t.result.value)
    ensures t.state.connection == s.connection && t.state.transaction == s.transaction
  {
    if !s.IsConnectionOpened() then Step(s, Failure(NoOpenedConnection))
    else Step(Issue(s, Reader, sql + LastInsertIdQuery), ScanIds(rows, 0))
  }

  // ---------------------------------------------------------------------------
  // Connect and Disconnect

  /** Connect fails with ArgumentNullException exactly for a null or empty string, and then changes nothing. */
  lemma ConnectRejectsNullOrEmpty(s: State, connectionString: Option<string>, response: OpenResponse)
    ensures Connect(s, connectionString, response).result == Failure(ArgumentNull)
            <==> IsNullOrEmpty(connectionString)
    ensures IsNullOrEmpty(connectionString) ==> Connect(s, connectionString, response).state == s
  {
  }

  /**
   * A successful Connect closes the previous connection exactly when it was open, opens a
   * new connection built from the string, and leaves the transaction reference as it was.
   */
  lemma ConnectOpensNewConnection(s: State, cs: string)
    requires cs != ""
    ensures var t := Connect(s, Some(cs), OpenSucceeds);
      && t.result == Success(())
      && t.state.IsConnectionOpened()
      && t.state.connection == Some(ConnHandle(s.nextHandle, cs, true))
      && t.state.transaction == s.transaction
      && t.state.command == s.command
      && t.state.log == s.log + (if s.IsConnectionOpened() then [Closed(s.connection.value.id)] else [])
                              + [Opened(s.nextHandle, cs)]
  {
  }

  /**
   * When Open() throws, the new connection object has already replaced the old one:
   * the old connection is closed and IsConnectionOpened() is false.
   */
  lemma ConnectOpenFailureLeavesClosedConnection(s: State, cs: string)
    requires cs != ""
    ensures var t := Connect(s, Some(cs), OpenThrows);
      && t.result == Failure(OpenError)
      && !t.state.IsConnectionOpened()
      && t.state.connection == Some(ConnHandle(s.nextHandle, cs, false))
  {
  }

  /** Disconnect closes an open connection and drops it; otherwise nothing changes. */
  lemma DisconnectCloses(s: State)
    ensures s.IsConnectionOpened() ==>
      Disconnect(s) == s.(connection := None, log := s.log + [Closed(s.connection.value.id)])
    ensures !s.IsConnectionOpened() ==> Disconnect(s) == s
  {
  }

  /** Disconnecting twice is disconnecting once. */
  lemma DisconnectIdempotent(s: State)
    ensures Disconnect(Disconnect(s)) == Disconnect(s)
  {
  }

  // ---------------------------------------------------------------------------
  // Transactions

  /**
   * BeginTransaction fails exactly when no connection is open, changing nothing; otherwise
   * it stores a new transaction on the open connection, replacing any earlier one.
   */
  lemma BeginTransactionSpec(s: State)
    ensures BeginTransaction(s).result == Failure(NoOpenedConnection) <==> !s.IsConnectionOpened()
    ensures !s.IsConnectionOpened() ==> BeginTransaction(s).state == s
    ensures s.IsConnectionOpened() ==>
      var t := BeginTransaction(s).state;
      && BeginTransaction(s).result == Success(())
      && t.transaction == Some(TxHandle(s.nextHandle, s.connection.value.id))
      && t.connection == s.connection && t.IsConnectionOpened()
      && t.log == s.log + [Began(t.transaction.value)]
  {
  }

  /** Commit checks the connection first, then the transaction; on success Transaction is null and the connection stays open. */
  lemma CommitSpec(s: State)
    ensures !s.IsConnectionOpened() ==> Commit(s) == Step(s, Failure(NoOpenedConnection))
    ensures s.IsConnectionOpened() && s.transaction.None? ==> Commit(s) == Step(s, Failure(NoOpenedTransaction))
    ensures s.IsConnectionOpened() && s.transaction.Some? ==>
      && Commit(s).result == Success(())
      && Commit(s).state == s.(transaction := None, log := s.log + [Committed(s.transaction.value)])
      && Commit(s).state.IsConnectionOpened()
  {
  }

  /** Rollback has the same guards, in the same order, as Commit. */
  lemma RollbackSpec(s: State)
    ensures !s.IsConnectionOpened() ==> Rollback(s) == Step(s, Failure(NoOpenedConnection))
    ensures s.IsConnectionOpened() && s.transaction.None? ==> Rollback(s) == Step(s, Failure(NoOpenedTransaction))
    ensures s.IsConnectionOpened() && s.transaction.Some? ==>
      && Rollback(s).result == Success(())
      && Rollback(s).state == s.(transaction := None, log := s.log + [RolledBack(s.transaction.value)])
      && Rollback(s).state.IsConnectionOpened()
  {
  }

  /** On an open connection, a second Commit (or Rollback) right after a first one raises NoOpenedTransaction. */
  lemma SecondEndFails(s: State, first: bool, second: bool)
    requires s.IsConnectionOpened()
    ensures EndTransaction(EndTransaction(s, first).state, second).result == Failure(NoOpenedTransaction)
  {
  }

  // ---------------------------------------------------------------------------
  // Execution

  /**
   * The three execute operations raise NoOpenedConnection and issue nothing when no connection
   * is open; otherwise they issue one command bound to the current connection and the current
   * transaction (possibly none), and change no other field.
   */
  lemma ExecuteGuard(s: State, sql: string, rows: seq<Row>)
    ensures !s.IsConnectionOpened() ==>
      && ExecuteSQL(s, sql) == Step(s, Failure(NoOpenedConnection))
      && ExecuteReader(s, sql, rows) == Step(s, Failure(NoOpenedConnection))
      && ExecuteSQLReturnId(s, sql, rows) == Step(s, Failure(NoOpenedConnection))
    ensures s.IsConnectionOpened() ==>
      var cmd := Command(s.connection.value.id, s.transaction, sql);
      && ExecuteSQL(s, sql) == Step(s.(command := Some(cmd), log := s.log + [Issued(NonQuery, cmd)]), Success(()))
      && ExecuteReader(s, sql, rows) == Step(s.(command := Some(cmd), log := s.log + [Issued(Reader, cmd)]), Success(rows))
  {
  }

  /** ExecuteSQLReturnId sends `sql; SELECT LAST_INSERT_ID() as id` on the current connection and transaction. */
  lemma ReturnIdCommand(s: State, sql: string, rows: seq<Row>)
    requires s.IsConnectionOpened()
    ensures var t := ExecuteSQLReturnId(s, sql, rows).state;
      && t.command == Some(Command(s.connection.value.id, s.transaction, sql + "; SELECT LAST_INSERT_ID() as id"))
      && t.connection == s.connection && t.transaction == s.transaction
      && t.log == s.log + [Issued(Reader, t.command.value)]
  {
  }

  /** When every row's id converts, the loop returns the last row's id, or the starting id when there are no rows. */
  lemma {:induction false} ScanIdsAllConvert(rows: seq<Row>, id: int)
    requires forall i :: 0 <= i < |rows| ==> ConvertId(rows[i]).Success?
    ensures ScanIds(rows, id) == Success(if rows == [] then id else ConvertId(rows[|rows| - 1]).value)
    decreases |rows|
  {
    if rows != [] {
      var rest := rows[1..];
      assert forall i :: 0 <= i < |rest| ==> ConvertId(rest[i]).Success? by {
        forall i | 0 <= i < |rest| ensures ConvertId(rest[i]).Success? {
          assert rest[i] == rows[i + 1];
        }
      }
      ScanIdsAllConvert(rest, ConvertId(rows[0]).value);
      if rest != [] {
        assert rest[|rest| - 1] == rows[|rows| - 1];
      }
    }
  }

  /** The loop stops at the first row whose id does not convert and raises that row's error. */
  lemma {:induction false} ScanIdsFirstFailure(rows: seq<Row>, id: int, k: nat)
    requires k < |rows| && ConvertId(rows[k]).Failure?
    requires forall i :: 0 <= i < k ==> ConvertId(rows[i]).Success?
    ensures ScanIds(rows, id) == Failure(ConvertId(rows[k]).error)
    decreases k
  {
    if k > 0 {
      var rest := rows[1..];
      assert rest[k - 1] == rows[k];
      assert forall i :: 0 <= i < k - 1 ==> ConvertId(rest[i]).Success? by {
        forall i | 0 <= i < k - 1 ensures ConvertId(rest[i]).Success? {
          assert rest[i] == rows[i + 1];
        }
      }
      ScanIdsFirstFailure(rest, ConvertId(rows[0]).value, k - 1);
    }
  }

  /** The loop raises an error only if some row fails to convert. */
  lemma {:induction false} ScanIdsFailureHasCause(rows: seq<Row>, id: int)
    requires ScanIds(rows, id).Failure?
    ensures exists k :: 0 <= k < |rows| && ConvertId(rows[k]) == Failure(ScanIds(rows, id).error)
    decreases |rows|
  {
    match ConvertId(rows[0])
    case Failure(e) =>
      assert ConvertId(rows[0]) == Failure(ScanIds(rows, id).error);
    case Success(v) =>
      ScanIdsFailureHasCause(rows[1..], v);
      var k :| 0 <= k < |rows[1..]| && ConvertId(rows[1..][k]) == Failure(ScanIds(rows[1..], v).error);
      assert rows[1..][k] == rows[k + 1];
  }

  /**
   * ExecuteSQLReturnId on an open connection returns 0 when the reader yields no rows and
   * otherwise the converted id of the last row, when every row converts; a NULL id reads as 0.
   */
  lemma ReturnIdValue(s: State, sql: string, rows: seq<Row>)
    requires s.IsConnectionOpened()
    requires forall i :: 0 <= i < |rows| ==> ConvertId(rows[i]).Success?
    ensures rows == [] ==> ExecuteSQLReturnId(s, sql, rows).result == Success(0)
    ensures rows != [] ==> ExecuteSQLReturnId(s, sql, rows).result == ConvertId(rows[|rows| - 1])
    ensures rows != [] && rows[|rows| - 1]["id"] == DBNull ==> ExecuteSQLReturnId(s, sql, rows).result == Success(0)
  {
    ScanIdsAllConvert(rows, 0);
  }

  /** A row whose id is NULL yields 0, and a row whose id is an Int64 yields that value. */
  lemma ConvertIdValues(row: Row)
    requires "id" in row
    ensures row["id"] == DBNull ==> ConvertId(row) == Success(0)
    ensures row["id"].Integer? && Int64.Represents(row["id"].n) ==> ConvertId(row) == Success(row["id"].n)
    ensures row["id"].Integer? && !Int64.Represents(row["id"].n) ==> ConvertId(row) == Failure(Conversion(Overflow))
  {
  }

  // ---------------------------------------------------------------------------
  // Quirks of the source, kept as they are

  /**
   * A second BeginTransaction replaces the first transaction without ending it: the first
   * is never committed or rolled back.
   */
  lemma BeginTransactionOverwrites(s: State)
    requires s.IsConnectionOpened()
    ensures var t1 := BeginTransaction(s).state;
      var t2 := BeginTransaction(t1).state;
      && BeginTransaction(t1).result == Success(())
      && t2.transaction.Some? && t2.transaction != t1.transaction
      && t2.log == t1.log + [Began(t2.transaction.value)]
  {
  }

  /**
   * After a reconnect, Commit and Rollback still succeed on the kept transaction, although it
   * belongs to the connection that was just closed: the class checks only that some
   * connection is open and that some transaction is held.
   */
  lemma ReconnectThenEndStaleTransaction(s: State, cs: string, commit: bool)
    requires s.IsConnectionOpened() && s.transaction.Some?
    requires s.transaction.value.connId < s.nextHandle
    requires cs != ""
    ensures var r := Connect(s, Some(cs), OpenSucceeds).state;
      var e := EndTransaction(r, commit);
      && r.connection.value.id != s.transaction.value.connId
      && e.result == Success(())
      && e.state.log == r.log + [if commit then Committed(s.transaction.value) else RolledBack(s.transaction.value)]
  {
  }

  /**
   * Reconnecting while a transaction is held keeps that transaction, so the next command is
   * bound to the new connection and to a transaction of the old one.
   */
  lemma ReconnectKeepsStaleTransaction(s: State, cs: string, sql: string)
    requires s.IsConnectionOpened() && s.transaction.Some?
    requires s.transaction.value.connId < s.nextHandle
    requires cs != ""
    ensures var t := ExecuteSQL(Connect(s, Some(cs), OpenSucceeds).state, sql).state;
      && t.command.Some?
      && t.command.value.transaction == s.transaction
      && t.command.value.connId != s.transaction.value.connId
  {
  }
}
