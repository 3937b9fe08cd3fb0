/**
  The four assertions: two polarities (the values should be equal, or should
  differ) times two reporting channels (report and continue, as `t.Errorf`
  does, or report and abort, as `t.Fatalf` does).

  The reporting surface is not modelled; each assertion returns what it would
  hand to it: nothing, or a message on one of the two channels. The stack
  lookup of `caller` is an input (`found`), so that every assertion is a
  method of its inputs only.
*/
module St {
  import opened Values
  import opened CallSite
  import opened Messages

  /** What an assertion hands to the reporting surface. */
  datatype Outcome =
    | NoReport
    | Error(msg: Message)   // reported, the test continues
    | Fatal(msg: Message)   // reported, the test is aborted

  /** `Expect`: silent when `act` and `exp` are deep-equal; otherwise a
      report on the continue channel with the `equal` template, the call
      site, the example-number prefix of `iter`, and `exp` in the `have`
      slot ahead of `act` in the `want` slot. */
  method Expect(act: Value, exp: Value, iter: seq<int>, found: Lookup) returns (outcome: Outcome)
    ensures outcome.NoReport? <==> DeepEqual(act, exp)
    ensures outcome.NoReport? || outcome.Error?
    ensures outcome.Error? ==>
              outcome.msg == Message(Equal, Resolve(found).file, Resolve(found).line, ExampleNum(iter), exp, act)
  {
    outcome := NoReport;
    if !DeepEqual(act, exp) {
      var file, line := Caller(found);
      outcome := Error(Message(Equal, file, line, ExampleNum(iter), exp, act));
    }
  }

  /** `Reject`: silent when `act` and `exp` differ; reports on the continue
      channel with the `unequal` template exactly when they are deep-equal,
      that is, exactly when `Expect` is silent. */
  method Reject(act: Value, exp: Value, iter: seq<int>, found: Lookup) returns (outcome: Outcome)
    ensures outcome.NoReport? <==> !DeepEqual(act, exp)
    ensures outcome.NoReport? || outcome.Error?
    ensures outcome.Error? ==>
              outcome.msg == Message(Unequal, Resolve(found).file, Resolve(found).line, ExampleNum(iter), exp, act)
  {
    outcome := NoReport;
    if DeepEqual(act, exp) {
      var file, line := Caller(found);
      outcome := Error(Message(Unequal, file, line, ExampleNum(iter), exp, act));
    }
  }

  /** `Assert`: the condition of `Expect`, reported on the abort channel and
      always with an empty prefix, since it takes no loop index. */
  method Assert(act: Value, exp: Value, found: Lookup) returns (outcome: Outcome)
    ensures outcome.NoReport? <==> DeepEqual(act, exp)
    ensures outcome.NoReport? || outcome.Fatal?
    ensures outcome.Fatal? ==>
              outcome.msg == Message(Equal, Resolve(found).file, Resolve(found).line, "", exp, act)
  {
    outcome := NoReport;
    if !DeepEqual(act, exp) {
      var file, line := Caller(found);
      outcome := Fatal(Message(Equal, file, line, "", exp, act));
    }
  }

  /** `Refute`: the condition of `Reject` (it fires when the values ARE
      deep-equal), reported on the abort channel with an empty prefix. */
  method Refute(act: Value, exp: Value, found: Lookup) returns (outcome: Outcome)
    ensures outcome.NoReport? <==> !DeepEqual(act, exp)
    ensures outcome.NoReport? || outcome.Fatal?
    ensures outcome.Fatal? ==>
              outcome.msg == Message(Unequal, Resolve(found).file, Resolve(found).line, "", exp, act)
  {
    outcome := NoReport;
    if DeepEqual(act, exp) {
      var file, line := Caller(found);
      outcome := Fatal(Message(Unequal, file, line, "", exp, act));
    }
  }
}
