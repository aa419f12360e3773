/**
 * Class BaseConnection of BaseConnection.cs: the fields the source updates in place and its
 * protected operations, each proved to leave exactly the state, and return exactly the
 * result, that the matching function of ConnectionModel gives.
 */
module MySqlConnect {
  import opened Wrappers
  import opened ConnectionModel

  class BaseConnection {
    var connection: Option<ConnHandle>
    var transaction: Option<TxHandle>
    var command: Option<Command>
    /** Identity of the next driver object created (stands for `new`). */
    var nextHandle: nat
    /** The calls made into the driver so far. */
    ghost var log: seq<Action>

    ghost function Snapshot(): State
      reads this
    {
      State(connection, transaction, command, nextHandle, log)
    }

    /** The implicit constructor: every field null. */
    constructor ()
      ensures Snapshot() == Initial()
    {
      connection, transaction, command, nextHandle := None, None, None, 0;
      log := [];
    }

    function IsConnectionOpened(): (b: bool)
      reads this
      ensures b <==> Snapshot().IsConnectionOpened()
    {
      connection.Some? && connection.value.open
    }

    /** Connection.Close() on the open connection. */
    method CloseConnection()
      requires IsConnectionOpened()
      modifies this
      ensures Snapshot() == ConnectionModel.CloseConnection(old(Snapshot()))
    {
      log := log + [Closed(connection.value.id)];
      connection := Some(connection.value.(open := false));
    }

    method Connect(connectionString: Option<string>, response: OpenResponse) returns (r: Result<(), Error>)
      modifies this
      ensures Step(Snapshot(), r) == ConnectionModel.Connect(old(Snapshot()), connectionString, response)
    {
      if connectionString.None? || connectionString.value == "" {
        return Failure(ArgumentNull);
      }
      if IsConnectionOpened() {
        CloseConnection();
      }
      if response == StringRejected {
        return Failure(InvalidConnectionString);
      }
      var cs := connectionString.value;
      var id := nextHandle;
      nextHandle := nextHandle + 1;
      connection := Some(ConnHandle(id, cs, false));
      if response == OpenThrows {
        log := log + [OpenFailed(id, cs)];
        return Failure(OpenError);
      }
      connection := Some(connection.value.(open := true));
      log := log + [Opened(id, cs)];
      r := Success(());
    }

    method Disconnect()
      modifies this
      ensures Snapshot() == ConnectionModel.Disconnect(old(Snapshot()))
    {
      if IsConnectionOpened() {
        CloseConnection();
        connection := None;
      }
    }

    method BeginTransaction() returns (r: Result<(), Error>)
      modifies this
      ensures Step(Snapshot(), r) == ConnectionModel.BeginTransaction(old(Snapshot()))
    {
      if IsConnectionOpened() {
        var tx := TxHandle(nextHandle, connection.value.id);
        nextHandle := nextHandle + 1;
        log := log + [Began(tx)];
        transaction := Some(tx);
        r := Success(());
      } else {
        r := Failure(NoOpenedConnection);
      }
    }

    method Commit() returns (r: Result<(), Error>)
      modifies this
      ensures Step(Snapshot(), r) == ConnectionModel.Commit(old(Snapshot()))
    {
      if IsConnectionOpened() {
        if transaction.Some? {
          log := log + [Committed(transaction.value)];
          transaction := None;
          r := Success(());
        } else {
          r := Failure(NoOpenedTransaction);
        }
      } else {
        r := Failure(NoOpenedConnection);
      }
    }

    method Rollback() returns (r: Result<(), Error>)
      modifies this
      ensures Step(Snapshot(), r) == ConnectionModel.Rollback(old(Snapshot()))
    {
      if IsConnectionOpened() {
        if transaction.Some? {
          log := log + [RolledBack(transaction.value)];
          transaction := None;
          r := Success(());
        } else {
          r := Failure(NoOpenedTransaction);
        }
      } else {
        r := Failure(NoOpenedConnection);
      }
    }

    /** CreateCommand on the open connection, bound to it and to the current transaction, then run. */
    method IssueCommand(kind: CommandKind, text: string)
      requires IsConnectionOpened()
      modifies this
      ensures Snapshot() == Issue(old(Snapshot()), kind, text)
    {
      command := Some(Command(connection.value.id, transaction, text));
      log := log + [Issued(kind, command.value)];
    }

    method ExecuteSQL(sql: string) returns (r: Result<(), Error>)
      modifies this
      ensures Step(Snapshot(), r) == ConnectionModel.ExecuteSQL(old(Snapshot()), sql)
    {
      if IsConnectionOpened() {
        IssueCommand(NonQuery, sql);
        r := Success(());
      } else {
        r := Failure(NoOpenedConnection);
      }
    }

    /** `rows` is what the server answers to the query; the reader yields them. */
    method ExecuteReader(sql: string, rows: seq<Row>) returns (r: Result<seq<Row>, Error>)
      modifies this
      ensures Step(Snapshot(), r) == ConnectionModel.ExecuteReader(old(Snapshot()), sql, rows)
    {
      if IsConnectionOpened() {
        IssueCommand(Reader, sql);
        r := Success(rows);
      } else {
        r := Failure(NoOpenedConnection);
      }
    }

    /** `rows` is what the reader yields for the batched command. */
    method ExecuteSQLReturnId(sql: string, rows: seq<Row>) returns (r: Result<int, Error>)
      modifies this
      ensures Step(Snapshot(), r) == ConnectionModel.ExecuteSQLReturnId(old(Snapshot()), sql, rows)
    {
      if !IsConnectionOpened() {
        return Failure(NoOpenedConnection);
      }
      IssueCommand(Reader, sql + LastInsertIdQuery);
      var id := 0;
      var i := 0;
      while i < |rows|
        invariant 0 <= i <= |rows|
        invariant ScanIds(rows[i..], id) == ScanIds(rows, 0)
      {
        assert rows[i..][1..] == rows[i + 1..];
        var v := ConvertId(rows[i]);
        if v.Failure? {
          return Failure(v.error);
        }
        id := v.value;
        i := i + 1;
      }
      r := Success(id);
    }
  }
}
