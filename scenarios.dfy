/** Whole sessions of the engine, run through the step functions. */
module Scenarios {
  import opened Values
  import opened DangerGuard
  import opened GuardExamples
  import opened Instructions

  /** connect, add "Bob", add 42, then run a query the guard lets through:
      the driver receives the bindings ["Bob", 42] in that order, the queue
      ends empty and, when the driver succeeds, exactly one "Ran Query"
      record holding the query text is the whole evidence. */
  lemma ConnectAddAddQuery(d: Driver, u: string, p: string, cs: string, query: string)
    requires d.connect(u, p, cs).Ok?
    requires !IsDangerous(query)
    ensures var calls := [Call(Connect(u, p, cs), false, d), Call(AddParameterString("Bob"), false, d),
                          Call(AddParameterInt(42), false, d), Call(Query(query, false), false, d)];
      var s := Run(Initial, calls);
      var bound := [String("Bob"), Integer(42)];
      s.params == [] && s.conn == Some(d.connect(u, p, cs).value)
      && s.evidence == (if d.execute(d.connect(u, p, cs).value, query, bound).Ok? then [RanQuery(query)] else [])
  {
    var calls := [Call(Connect(u, p, cs), false, d), Call(AddParameterString("Bob"), false, d),
                  Call(AddParameterInt(42), false, d), Call(Query(query, false), false, d)];
    var h := d.connect(u, p, cs).value;
    var s1 := Apply(Initial, calls[0]);
    assert s1 == EngineState(Some(h), [], []);
    var s2 := Apply(s1, calls[1]);
    var s3 := Apply(s2, calls[2]);
    assert s3.params == [String("Bob"), Integer(42)];
    var s4 := Apply(s3, calls[3]);
    assert Run(s4, calls[4..]) == s4;
    assert Run(s3, calls[3..]) == s4;
    assert Run(s2, calls[2..]) == s4;
    assert Run(s1, calls[1..]) == s4;
  }

  /** Without a prior connect a query fails with NotYetConnected, and the
      parameters queued so far stay queued; nothing is recorded. */
  lemma QueryBeforeConnect(d: Driver, query: string, v: SqlValue)
    requires !IsDangerous(query)
    ensures var s := AddParameterStep(Initial, v, false);
      QueryStep(s, d, query, false, false) == Step(s, Err(NotYetConnected))
  {
  }

  /** A denylisted statement is refused before the connection is even
      looked at: with no connection and no permission, "DELETE FROM t" fails
      with DangerousQuery and changes nothing, in a dry run as well. */
  lemma DeleteRefusedFirst(d: Driver, query: string, dryRun: bool)
    requires query == "DELETE FROM t"
    ensures QueryStep(Initial, d, query, false, dryRun) == Step(Initial, Err(DangerousQuery))
  {
    DeleteIsDangerous(query);
  }

  /** Parameters added in a dry run are not there for the next real query:
      only the value added for real is bound. */
  lemma DryRunAddIsNotBound(d: Driver, c: Connection, query: string, dryValue: SqlValue, realValue: SqlValue)
    requires !IsDangerous(query)
    ensures var s := EngineState(Some(c), [], []);
      var t := AddParameterStep(AddParameterStep(s, dryValue, true), realValue, false);
      var r := QueryStep(t, d, query, false, false);
      r.next.params == [] && (r.result.Ok? <==> d.execute(c, query, [realValue]).Ok?)
  {
  }
}
