/** What each instruction of the Oracle engine does to the engine's state,
    as functions from the state before the call to the state after it and
    the call's result. The `Engine` class is proved to follow them; the
    properties the engine promises are stated here, on the functions, and
    for whole sequences of instructions by the lemmas at the end. */
module Instructions {
  import opened Values
  import opened DangerGuard

  /** The engine's durable state: the optional connection, the queue of
      parameters for the next query, and the evidence recorded so far. */
  datatype EngineState = EngineState(
    conn: Option<Connection>,
    params: seq<SqlValue>,
    evidence: seq<Evidence>)

  /** The state a fresh engine starts in (`#[derive(Default)]`). */
  const Initial: EngineState := EngineState(None, [], [])

  /** The state after a call, with the call's result. */
  datatype Step<T> = Step(next: EngineState, result: Result<T, EngineError>)

  /** The guard refuses the query. */
  predicate Refused(query: string, dangerAllowed: bool) {
    !dangerAllowed && IsDangerous(query)
  }

  /** A query call gets as far as the database: the guard let it through,
      it is not a dry run, and a connection exists. */
  predicate ReachesDriver(s: EngineState, query: string, dangerAllowed: bool, dryRun: bool) {
    !Refused(query, dangerAllowed) && !dryRun && s.conn.Some?
  }

  // ---------------------------------------------------------------------------
  // connect

  /** `connect`: a dry run does nothing; otherwise a driver failure is
      reported and leaves the old connection in place, and a success
      replaces the connection. The queue and the evidence never change. */
  function ConnectStep(s: EngineState, d: Driver, username: string, password: string,
                       connectString: string, dryRun: bool): (r: Step<()>)
    ensures r.next.params == s.params && r.next.evidence == s.evidence
    ensures dryRun ==> r.next == s && r.result.Ok?
    ensures !dryRun ==> (r.result.Ok? <==> d.connect(username, password, connectString).Ok?)
    ensures r.result.Err? ==>
      r.next.conn == s.conn && r.result.error == Oracle(d.connect(username, password, connectString).error)
    ensures !dryRun && r.result.Ok? ==> r.next.conn == Some(d.connect(username, password, connectString).value)
  {
    if dryRun then Step(s, Ok(()))
    else
      match d.connect(username, password, connectString)
      case Err(e) => Step(s, Err(Oracle(e)))
      case Ok(c) => Step(s.(conn := Some(c)), Ok(()))
  }

  // ---------------------------------------------------------------------------
  // add_parameter_string / add_parameter_int / add_parameter_bool

  /** Adding a parameter: outside a dry run exactly one value is appended at
      the end of the queue and the earlier ones stay as they were; in a dry
      run the queue is unchanged. The call cannot fail. */
  function AddParameterStep(s: EngineState, v: SqlValue, dryRun: bool): (r: EngineState)
    ensures r.conn == s.conn && r.evidence == s.evidence
    ensures |r.params| == |s.params| + (if dryRun then 0 else 1)
    ensures r.params[..|s.params|] == s.params
    ensures !dryRun ==> r.params[|s.params|] == v
  {
    if dryRun then s else s.(params := s.params + [v])
  }

  // ---------------------------------------------------------------------------
  // query

  /** `query`: the guard runs first, dry run or not; then a dry run stops
      with success; then a missing connection is reported; then the whole
      queue is taken, in order, as the query's bindings and the queue is left
      empty whatever the driver answers; one "Ran Query" record is appended
      only when the driver runs the query successfully. */
  function QueryStep(s: EngineState, d: Driver, query: string, dangerAllowed: bool,
                     dryRun: bool): (r: Step<()>)
    ensures r.next.conn == s.conn
    ensures r.result == Err(DangerousQuery) <==> Refused(query, dangerAllowed)
    ensures r.result == Err(NotYetConnected) <==> !Refused(query, dangerAllowed) && !dryRun && s.conn.None?
    ensures dryRun && !Refused(query, dangerAllowed) ==> r.result == Ok(())
    ensures !ReachesDriver(s, query, dangerAllowed, dryRun) ==> r.next == s
    ensures ReachesDriver(s, query, dangerAllowed, dryRun) ==>
      r.next.params == []
      && (r.result.Ok? <==> d.execute(s.conn.value, query, s.params).Ok?)
    ensures ReachesDriver(s, query, dangerAllowed, dryRun) && d.execute(s.conn.value, query, s.params).Err? ==>
      r.result == Err(Oracle(d.execute(s.conn.value, query, s.params).error))
    ensures r.next.evidence ==
      s.evidence + (if ReachesDriver(s, query, dangerAllowed, dryRun) && r.result.Ok? then [RanQuery(query)] else [])
  {
    if Refused(query, dangerAllowed) then Step(s, Err(DangerousQuery))
    else if dryRun then Step(s, Ok(()))
    else if s.conn.None? then Step(s, Err(NotYetConnected))
    else
      var drained := s.(params := []);
      match d.execute(s.conn.value, query, s.params)
      case Err(e) => Step(drained, Err(Oracle(e)))
      case Ok(_) => Step(drained.(evidence := s.evidence + [RanQuery(query)]), Ok(()))
  }

  // ---------------------------------------------------------------------------
  // query_with_string_result / query_with_integer_result

  /** The two result-returning queries, for a column getter `get` and the
      value `zero` a dry run returns. As QueryStep up to the driver call;
      then the first row is fetched, the "Ran Query" record is appended as
      soon as that succeeds, and only afterwards is the column read, so a
      failed column read still leaves exactly one new record. */
  function RowQueryStep<T>(s: EngineState, queryRow: (Connection, string, seq<SqlValue>) -> Result<Row, OracleError>,
                           get: (Row, string) -> Result<T, OracleError>, zero: T,
                           query: string, column: string, dangerAllowed: bool, dryRun: bool): (r: Step<T>)
    ensures r.next.conn == s.conn
    ensures r.result == Err(DangerousQuery) <==> Refused(query, dangerAllowed)
    ensures r.result == Err(NotYetConnected) <==> !Refused(query, dangerAllowed) && !dryRun && s.conn.None?
    ensures dryRun && !Refused(query, dangerAllowed) ==> r.result == Ok(zero)
    ensures !ReachesDriver(s, query, dangerAllowed, dryRun) ==> r.next == s
    ensures ReachesDriver(s, query, dangerAllowed, dryRun) ==>
      r.next.params == []
      && (r.result.Ok? <==>
            queryRow(s.conn.value, query, s.params).Ok?
            && get(queryRow(s.conn.value, query, s.params).value, column).Ok?)
      && (r.result.Ok? ==> r.result.value == get(queryRow(s.conn.value, query, s.params).value, column).value)
    ensures ReachesDriver(s, query, dangerAllowed, dryRun) && queryRow(s.conn.value, query, s.params).Err? ==>
      r.result == Err(Oracle(queryRow(s.conn.value, query, s.params).error))
    ensures ReachesDriver(s, query, dangerAllowed, dryRun) && queryRow(s.conn.value, query, s.params).Ok?
            && get(queryRow(s.conn.value, query, s.params).value, column).Err? ==>
      r.result == Err(Oracle(get(queryRow(s.conn.value, query, s.params).value, column).error))
    ensures r.next.evidence ==
      s.evidence + (if ReachesDriver(s, query, dangerAllowed, dryRun)
                       && queryRow(s.conn.value, query, s.params).Ok? then [RanQuery(query)] else [])
  {
    if Refused(query, dangerAllowed) then Step(s, Err(DangerousQuery))
    else if dryRun then Step(s, Ok(zero))
    else if s.conn.None? then Step(s, Err(NotYetConnected))
    else
      var drained := s.(params := []);
      match queryRow(s.conn.value, query, s.params)
      case Err(e) => Step(drained, Err(Oracle(e)))
      case Ok(row) =>
        var recorded := drained.(evidence := s.evidence + [RanQuery(query)]);
        match get(row, column)
        case Err(e) => Step(recorded, Err(Oracle(e)))
        case Ok(v) => Step(recorded, Ok(v))
  }

  // ---------------------------------------------------------------------------
  // Sequences of instructions

  /** The seven instructions with their arguments. */
  datatype Instruction =
    | Connect(username: string, password: string, connectString: string)
    | AddParameterString(text: string)
    | AddParameterInt(number: I32)
    | AddParameterBool(flag: bool)
    | Query(query: string, dangerAllowed: bool)
    | QueryWithStringResult(query: string, column: string, dangerAllowed: bool)
    | QueryWithIntegerResult(query: string, column: string, dangerAllowed: bool)

  /** One call of an instruction, with the host's dry-run flag and the
      database's behaviour at the time of the call: each call has its own
      `Driver`, so the same statement may succeed once and fail later. */
  datatype Call = Call(instruction: Instruction, dryRun: bool, driver: Driver)

  predicate IsAdd(i: Instruction) {
    i.AddParameterString? || i.AddParameterInt? || i.AddParameterBool?
  }

  /** The value an add-parameter instruction queues. */
  function Queued(i: Instruction): (v: SqlValue)
    requires IsAdd(i)
    ensures i.AddParameterInt? ==> v.Integer? && v.number as int == i.number as int
  {
    match i
    case AddParameterString(t) => String(t)
    case AddParameterInt(n) => Integer(Widen(n))
    case AddParameterBool(b) => Boolean(b)
  }

  /** The state after one call. */
  function Apply(s: EngineState, c: Call): EngineState {
    var d := c.driver;
    match c.instruction
    case Connect(u, p, cs) => ConnectStep(s, d, u, p, cs, c.dryRun).next
    case AddParameterString(_) => AddParameterStep(s, Queued(c.instruction), c.dryRun)
    case AddParameterInt(_) => AddParameterStep(s, Queued(c.instruction), c.dryRun)
    case AddParameterBool(_) => AddParameterStep(s, Queued(c.instruction), c.dryRun)
    case Query(q, da) => QueryStep(s, d, q, da, c.dryRun).next
    case QueryWithStringResult(q, col, da) => RowQueryStep(s, d.queryRow, d.getString, "", q, col, da, c.dryRun).next
    case QueryWithIntegerResult(q, col, da) => RowQueryStep(s, d.queryRow, d.getInteger, 0, q, col, da, c.dryRun).next
  }

  /** The state after a sequence of calls, made one after another. */
  function Run(s: EngineState, calls: seq<Call>): EngineState
    decreases |calls|
  {
    if |calls| == 0 then s else Run(Apply(s, calls[0]), calls[1..])
  }

  /** The values a sequence of add-parameter calls queues: those of the
      calls that are not dry runs, in call order. */
  function QueuedBy(calls: seq<Call>): seq<SqlValue>
    requires forall k :: 0 <= k < |calls| ==> IsAdd(calls[k].instruction)
    decreases |calls|
  {
    if |calls| == 0 then []
    else (if calls[0].dryRun then [] else [Queued(calls[0].instruction)]) + QueuedBy(calls[1..])
  }

  /** Dry runs change nothing: any sequence of dry-run calls, whatever the
      database would answer at each of them, leaves connection, queue and evidence as they were. */
  lemma {:induction false} DryRunsChangeNothing(s: EngineState, calls: seq<Call>)
    requires forall k :: 0 <= k < |calls| ==> calls[k].dryRun
    ensures Run(s, calls) == s
    decreases |calls|
  {
    if |calls| > 0 {
      DryRunsChangeNothing(s, calls[1..]);
    }
  }

  /** Evidence is append-only: whatever is called, and however the database
      answers each call, the evidence before is a prefix of the evidence after. */
  lemma {:induction false} EvidenceOnlyGrows(s: EngineState, calls: seq<Call>)
    ensures s.evidence <= Run(s, calls).evidence
    decreases |calls|
  {
    if |calls| > 0 {
      EvidenceOnlyGrows(Apply(s, calls[0]), calls[1..]);
    }
  }

  /** Only `connect` changes the connection: without a connect call that is
      not a dry run, the connection stays what it was, however the database
      answers each call. */
  lemma {:induction false} OnlyConnectConnects(s: EngineState, calls: seq<Call>)
    requires forall k :: 0 <= k < |calls| ==> calls[k].instruction.Connect? ==> calls[k].dryRun
    ensures Run(s, calls).conn == s.conn
    decreases |calls|
  {
    if |calls| > 0 {
      OnlyConnectConnects(Apply(s, calls[0]), calls[1..]);
    }
  }

  /** Parameters queue in call order: after a sequence of add-parameter
      calls the queue is the old queue followed by the values of the calls
      that were not dry runs, in order; nothing else changes. */
  lemma {:induction false} AddsQueueInOrder(s: EngineState, calls: seq<Call>)
    requires forall k :: 0 <= k < |calls| ==> IsAdd(calls[k].instruction)
    ensures Run(s, calls) == s.(params := s.params + QueuedBy(calls))
    decreases |calls|
  {
    if |calls| > 0 {
      var next := Apply(s, calls[0]);
      AddsQueueInOrder(next, calls[1..]);
      assert next.params + QueuedBy(calls[1..]) == s.params + QueuedBy(calls);
    }
  }

  /** Queued parameters reach the driver as the bindings of the next query
      that gets past the connection check, in the order they were added. */
  lemma AddsThenQuery(s: EngineState, adds: seq<Call>, d: Driver, query: string, dangerAllowed: bool)
    requires forall k :: 0 <= k < |adds| ==> IsAdd(adds[k].instruction)
    requires s.conn.Some? && !Refused(query, dangerAllowed)
    ensures var t := Run(s, adds);
      var r := QueryStep(t, d, query, dangerAllowed, false);
      r.next.params == []
      && (r.result.Ok? <==> d.execute(s.conn.value, query, s.params + QueuedBy(adds)).Ok?)
  {
    AddsQueueInOrder(s, adds);
  }
}
