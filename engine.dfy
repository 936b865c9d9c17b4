/** The `Oracle` engine state and its seven instructions, each changing the
    state in place as the source does. Every instruction is proved to follow
    its step function in module Instructions. */
module OracleEngine {
  import opened Values
  import opened DangerGuard
  import opened Instructions

  class Engine {
    /** The open session, if a connect has succeeded. */
    var conn: Option<Connection>
    /** The parameters queued for the next query, oldest first. */
    var params: seq<SqlValue>
    /** The evidence recorded for the queries that ran. */
    var evidence: seq<Evidence>

    /** The engine's state as a value. */
    function State(): EngineState
      reads this
    {
      EngineState(conn, params, evidence)
    }

    /** A fresh engine: no connection, no parameters, no evidence. */
    constructor ()
      ensures State() == Initial
    {
      conn := None;
      params := [];
      evidence := [];
    }

    /** `connect`: open a session through the driver and keep it, unless this
        is a dry run. A failure leaves the previous connection in place. */
    method Connect(d: Driver, username: string, password: string, connectString: string, dryRun: bool)
      returns (r: Result<(), EngineError>)
      modifies this
      ensures State() == ConnectStep(old(State()), d, username, password, connectString, dryRun).next
      ensures r == ConnectStep(old(State()), d, username, password, connectString, dryRun).result
    {
      if !dryRun {
        var session := d.connect(username, password, connectString);
        if session.Err? {
          return Err(Oracle(session.error));
        }
        conn := Some(session.value);
      }
      r := Ok(());
    }

    /** `add_parameter_string`: queue a text parameter. */
    method AddParameterString(text: string, dryRun: bool)
      modifies this
      ensures State() == AddParameterStep(old(State()), String(text), dryRun)
    {
      if !dryRun {
        params := params + [String(text)];
      }
    }

    /** `add_parameter_int`: queue an integer parameter, widened from 32 to
        64 bits. */
    method AddParameterInt(number: I32, dryRun: bool)
      modifies this
      ensures State() == AddParameterStep(old(State()), Integer(Widen(number)), dryRun)
    {
      if !dryRun {
        params := params + [Integer(Widen(number))];
      }
    }

    /** `add_parameter_bool`: queue a boolean parameter. */
    method AddParameterBool(flag: bool, dryRun: bool)
      modifies this
      ensures State() == AddParameterStep(old(State()), Boolean(flag), dryRun)
    {
      if !dryRun {
        params := params + [Boolean(flag)];
      }
    }

    /** Take the whole queue for one query, leaving the queue empty. */
    method DrainParameters() returns (bindings: seq<SqlValue>)
      modifies this
      ensures bindings == old(params)
      ensures params == [] && conn == old(conn) && evidence == old(evidence)
    {
      bindings := params;
      params := [];
    }

    /** `query`: run a statement that returns nothing. */
    method Query(d: Driver, query: string, dangerAllowed: bool, dryRun: bool)
      returns (r: Result<(), EngineError>)
      modifies this
      ensures State() == QueryStep(old(State()), d, query, dangerAllowed, dryRun).next
      ensures r == QueryStep(old(State()), d, query, dangerAllowed, dryRun).result
    {
      var refused := CheckQuery(query, dangerAllowed);
      if refused {
        return Err(DangerousQuery);
      }
      if !dryRun {
        if conn.None? {
          return Err(NotYetConnected);
        }
        var session := conn.value;
        var bindings := DrainParameters();
        var outcome := d.execute(session, query, bindings);
        if outcome.Err? {
          return Err(Oracle(outcome.error));
        }
        evidence := evidence + [RanQuery(query)];
      }
      r := Ok(());
    }

    /** `query_with_string_result`: run a query and read one text column of
        its first row. */
    method QueryWithStringResult(d: Driver, query: string, column: string, dangerAllowed: bool, dryRun: bool)
      returns (r: Result<string, EngineError>)
      modifies this
      ensures State() == RowQueryStep(old(State()), d.queryRow, d.getString, "", query, column, dangerAllowed, dryRun).next
      ensures r == RowQueryStep(old(State()), d.queryRow, d.getString, "", query, column, dangerAllowed, dryRun).result
    {
      var refused := CheckQuery(query, dangerAllowed);
      if refused {
        return Err(DangerousQuery);
      }
      if dryRun {
        return Ok("");
      }
      if conn.None? {
        return Err(NotYetConnected);
      }
      var session := conn.value;
      var bindings := DrainParameters();
      var row := d.queryRow(session, query, bindings);
      if row.Err? {
        return Err(Oracle(row.error));
      }
      evidence := evidence + [RanQuery(query)];
      var value := d.getString(row.value, column);
      if value.Err? {
        return Err(Oracle(value.error));
      }
      r := Ok(value.value);
    }

    /** `query_with_integer_result`: run a query and read one 32-bit integer
        column of its first row. */
    method QueryWithIntegerResult(d: Driver, query: string, column: string, dangerAllowed: bool, dryRun: bool)
      returns (r: Result<I32, EngineError>)
      modifies this
      ensures State() == RowQueryStep(old(State()), d.queryRow, d.getInteger, 0, query, column, dangerAllowed, dryRun).next
      ensures r == RowQueryStep(old(State()), d.queryRow, d.getInteger, 0, query, column, dangerAllowed, dryRun).result
    {
      var refused := CheckQuery(query, dangerAllowed);
      if refused {
        return Err(DangerousQuery);
      }
      if dryRun {
        return Ok(0);
      }
      if conn.None? {
        return Err(NotYetConnected);
      }
      var session := conn.value;
      var bindings := DrainParameters();
      var row := d.queryRow(session, query, bindings);
      if row.Err? {
        return Err(Oracle(row.error));
      }
      evidence := evidence + [RanQuery(query)];
      var value := d.getInteger(row.value, column);
      if value.Err? {
        return Err(Oracle(value.error));
      }
      r := Ok(value.value);
    }
  }
}
