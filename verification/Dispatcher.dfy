/** Dispatching requests to agents, and the lifecycle log this leaves. */
module Dispatcher {
  import opened Wrappers

  datatype Domain = PlanDomain | MemorySync | ReportDraft | Verification | GovernanceEvaluation | ReportFinalize
                  | CashflowAnalysis | DebtAnalysis | TaxAnalysis | PortfolioAnalysis | BehaviorAnalysis | TaskGeneration

  datatype MessageKind = NoKind | Request(domain: Domain) | Reply(domain: Domain) | OtherKind(name: string)

  function ExpectedResultKind(k: MessageKind): MessageKind {
    if k.Request? then Reply(k.domain) else NoKind
  }

  datatype Metadata = Metadata(messageId: string, correlationId: string, causationId: string, emittedAt: int)

  /** A body that sets the fields of `domains`; `wellFormed` stands for the checks within the field. */
  datatype Body = Body(domains: set<Domain>, wellFormed: bool)

  /** What request and response share; `taskValid` stands for the task's own checks. */
  datatype Subject = Subject(taskId: string, taskValid: bool, userId: string, stateVersion: int)

  datatype Envelope = Envelope(
    metadata: Metadata, sender: string, recipient: string, subject: Subject, kind: MessageKind, payload: Body)

  datatype Category = Validation | Policy | Transient | Unrecoverable | UnsupportedMessage | BadPayload

  datatype Failure = Failure(category: Category, message: string)

  datatype Response = Response(
    metadata: Metadata, sender: string, recipient: string, subject: Subject, kind: MessageKind,
    success: bool, failure: Option<Failure>, body: Body, events: seq<string>)

  /** An error an agent or the registry returns, as far as it tells its failure. */
  datatype AgentError = Typed(recipient: string, kind: MessageKind, failure: Failure) | Categorized(failure: Failure) | Plain

  datatype ExecutionError = ExecutionError(recipient: string, kind: MessageKind, failure: Failure)

  datatype HandlerResult = HandlerResult(kind: MessageKind, body: Body, events: seq<string>)

  /** What resolving and running the agent comes to: the registry's error, the agent's error, or its result. */
  datatype Handling = Unresolved(error: AgentError) | Raised(error: AgentError) | Returned(result: HandlerResult)

  datatype Lifecycle = Dispatched | Started | Completed | Failed

  datatype ExecutionRecord = ExecutionRecord(
    dispatchId: string, lifecycle: Lifecycle, recipient: string, requestKind: MessageKind, correlationId: string,
    requestMessageId: string, resultMessageId: string, errorCategory: Option<Category>)

  datatype DispatchResult = DispatchResult(dispatchId: string, response: Option<Response>, error: Option<ExecutionError>)

  // Zero is the zero time.
  predicate ValidMetadata(m: Metadata) { m.messageId != "" && m.correlationId != "" && m.emittedAt != 0 }

  predicate ValidSubject(s: Subject) { s.taskValid && s.userId != "" && s.stateVersion != 0 }

  predicate BodyFits(b: Body, d: Domain) { |b.domains| == 1 && d in b.domains && b.wellFormed }

  predicate ValidEnvelope(e: Envelope) {
    && ValidMetadata(e.metadata) && e.sender != "" && e.recipient != "" && ValidSubject(e.subject)
    && e.kind.Request? && BodyFits(e.payload, e.kind.domain)
  }

  predicate ValidResponse(r: Response) {
    && ValidMetadata(r.metadata) && r.sender != "" && r.recipient != "" && ValidSubject(r.subject)
    && r.kind.Reply? && (if r.success then BodyFits(r.body, r.kind.domain) else r.failure.Some?)
  }

  datatype IdPart = For(recipient: string) | OfKind(kind: MessageKind) | OfFailure

  /** The hashed identifier made of a message id, another part and a time. */
  type MakeId = (string, IdPart, int) -> string

  /** A request, how it is handled if it is valid, and the clock. */
  datatype Call = Call(envelope: Envelope, handling: Handling, makeId: MakeId, now: int)

  function Coerce(e: AgentError, envelope: Envelope, fallback: Failure): ExecutionError {
    match e
    case Typed(recipient, kind, failure) => ExecutionError(recipient, kind, failure)
    case Categorized(failure) => ExecutionError(envelope.recipient, envelope.kind, failure)
    case Plain => ExecutionError(envelope.recipient, envelope.kind, fallback)
  }

  function ResponseMetadata(c: Call, part: IdPart): Metadata {
    Metadata(c.makeId(c.envelope.metadata.messageId, part, c.now), c.envelope.metadata.correlationId,
             c.envelope.metadata.messageId, c.now)
  }

  function SuccessResponse(c: Call, result: HandlerResult): Response {
    Response(ResponseMetadata(c, OfKind(result.kind)), c.envelope.recipient, c.envelope.sender, c.envelope.subject,
             result.kind, true, None, result.body, result.events)
  }

  function FailedResponse(c: Call, error: ExecutionError): Response {
    Response(ResponseMetadata(c, OfFailure), c.envelope.recipient, c.envelope.sender, c.envelope.subject,
             ExpectedResultKind(c.envelope.kind), false, Some(error.failure), Body({}, false), [])
  }

  function DispatchId(c: Call): string {
    c.makeId(c.envelope.metadata.messageId, For(c.envelope.recipient), c.now)
  }

  function Record(c: Call, lifecycle: Lifecycle, resultMessageId: string, category: Option<Category>): ExecutionRecord {
    ExecutionRecord(DispatchId(c), lifecycle, c.envelope.recipient, c.envelope.kind, c.envelope.metadata.correlationId,
                    c.envelope.metadata.messageId, resultMessageId, category)
  }

  // ---------- What a dispatch is to do ----------

  predicate ReturnsExpectedKind(c: Call) {
    c.handling.Returned? && c.handling.result.kind == ExpectedResultKind(c.envelope.kind)
  }

  /** The one way a dispatch completes. */
  predicate Completes(c: Call) {
    && ValidEnvelope(c.envelope)
    && ReturnsExpectedKind(c)
    && BodyFits(c.handling.result.body, c.envelope.kind.domain)
    && c.makeId(c.envelope.metadata.messageId, OfKind(c.handling.result.kind), c.now) != "" && c.now != 0
  }

  function Lifecycles(c: Call): seq<Lifecycle> {
    if !ValidEnvelope(c.envelope) then []
    else if c.handling.Unresolved? then [Dispatched, Failed]
    else if Completes(c) then [Dispatched, Started, Completed]
    else [Dispatched, Started, Failed]
  }

  /** The records of one dispatch tell its lifecycle and carry its request's ids. */
  predicate GroupOf(c: Call, records: seq<ExecutionRecord>) {
    && |records| == |Lifecycles(c)|
    && forall i :: 0 <= i < |records| ==>
         && records[i].lifecycle == Lifecycles(c)[i]
         && records[i].dispatchId == DispatchId(c) && records[i].requestMessageId == c.envelope.metadata.messageId
         && records[i].correlationId == c.envelope.metadata.correlationId && records[i].recipient == c.envelope.recipient
         && records[i].requestKind == c.envelope.kind
         && (records[i].lifecycle == Failed <==> records[i].errorCategory.Some?)
  }

  /** A response goes back to the sender about the same subject, in the request's correlation and caused by it. */
  predicate Answers(c: Call, r: Response) {
    && r.metadata.correlationId == c.envelope.metadata.correlationId
    && r.metadata.causationId == c.envelope.metadata.messageId
    && r.sender == c.envelope.recipient && r.recipient == c.envelope.sender && r.subject == c.envelope.subject
  }

  class LocalAgentDispatcher {
    var trace: seq<ExecutionRecord>

    constructor ()
      ensures trace == []
    {
      trace := [];
    }

    /** An error is returned exactly when the dispatch does not complete; the last record names its category. */
    method Dispatch(c: Call) returns (r: DispatchResult)
      modifies this
      ensures old(trace) <= trace && GroupOf(c, trace[|old(trace)|..])
      ensures r.error.None? <==> Completes(c)
      ensures r.response.Some? <==> ValidEnvelope(c.envelope) && !c.handling.Unresolved?
      ensures r.response.Some? ==> Answers(c, r.response.value)
      ensures r.response.Some? ==> (r.response.value.success <==> ReturnsExpectedKind(c))
      ensures r.error.Some? && (!ValidEnvelope(c.envelope) || c.handling.Returned?) ==>
                r.error.value.failure.category == BadPayload
      ensures ValidEnvelope(c.envelope) && c.handling.Unresolved? ==>
                r.error == Some(Coerce(c.handling.error, c.envelope, Failure(UnsupportedMessage, "agent resolution failed")))
      ensures r.error.None? ==> ValidResponse(r.response.value) && r.response.value.success
                                && r.response.value.body == c.handling.result.body
      ensures r.error.Some? && |trace| > |old(trace)| ==>
                trace[|trace| - 1].errorCategory == Some(r.error.value.failure.category)
      ensures ValidEnvelope(c.envelope) && c.handling.Raised? ==>
                r.error == Some(Coerce(c.handling.error, c.envelope, Failure(Unrecoverable, "agent handler failed")))
                && r.response.value.failure == Some(r.error.value.failure)
    {
      if !ValidEnvelope(c.envelope) {
        return DispatchResult("", None, Some(ExecutionError(c.envelope.recipient, c.envelope.kind,
                                                            Failure(BadPayload, "invalid agent envelope"))));
      }
      var dispatchId := DispatchId(c);
      Append(Record(c, Dispatched, "", None));
      if c.handling.Unresolved? {
        var error := Coerce(c.handling.error, c.envelope, Failure(UnsupportedMessage, "agent resolution failed"));
        Append(Record(c, Failed, "", Some(error.failure.category)));
        return DispatchResult("", None, Some(error));
      }
      Append(Record(c, Started, "", None));
      if c.handling.Raised? {
        var error := Coerce(c.handling.error, c.envelope, Failure(Unrecoverable, "agent handler failed"));
        var response := FailedResponse(c, error);
        Append(Record(c, Failed, response.metadata.messageId, Some(error.failure.category)));
        return DispatchResult(dispatchId, Some(response), Some(error));
      }
      var result := c.handling.result;
      if result.kind != ExpectedResultKind(c.envelope.kind) {
        var error := ExecutionError(c.envelope.recipient, c.envelope.kind,
                                    Failure(BadPayload, "agent returned mismatched result kind"));
        var response := FailedResponse(c, error);
        Append(Record(c, Failed, response.metadata.messageId, Some(BadPayload)));
        return DispatchResult(dispatchId, Some(response), Some(error));
      }
      var response := SuccessResponse(c, result);
      if !ValidResponse(response) {
        var error := ExecutionError(c.envelope.recipient, c.envelope.kind,
                                    Failure(BadPayload, "agent handler returned invalid response body"));
        Append(Record(c, Failed, "", Some(BadPayload)));
        return DispatchResult(dispatchId, Some(response), Some(error));
      }
      Append(Record(c, Completed, response.metadata.messageId, None));
      return DispatchResult(dispatchId, Some(response), None);
    }

    method Append(record: ExecutionRecord)
      modifies this
      ensures trace == old(trace) + [record]
    {
      trace := trace + [record];
    }
  }

  // ---------- Runs ----------

  /** `trace` is what dispatching `calls` one after another leaves. */
  ghost predicate TraceOf(calls: seq<Call>, trace: seq<ExecutionRecord>) {
    if calls == [] then trace == []
    else exists n: nat :: n <= |trace| && TraceOf(calls[..|calls| - 1], trace[..n]) && GroupOf(calls[|calls| - 1], trace[n..])
  }

  /** A dispatch extends a run by its call. */
  method DispatchNext(d: LocalAgentDispatcher, c: Call, ghost calls: seq<Call>) returns (r: DispatchResult)
    requires TraceOf(calls, d.trace)
    modifies d
    ensures TraceOf(calls + [c], d.trace)
    ensures r.error.None? <==> Completes(c)
  {
    ghost var was := d.trace;
    r := d.Dispatch(c);
    assert (calls + [c])[..|calls|] == calls;
    assert d.trace[..|was|] == was;
  }

  function Marks(trace: seq<ExecutionRecord>): seq<Lifecycle> {
    seq(|trace|, i requires 0 <= i < |trace| => trace[i].lifecycle)
  }

  function RunLifecycles(calls: seq<Call>): seq<Lifecycle> {
    if calls == [] then [] else RunLifecycles(calls[..|calls| - 1]) + Lifecycles(calls[|calls| - 1])
  }

  lemma MarksSplit(trace: seq<ExecutionRecord>, n: nat)
    requires n <= |trace|
    ensures Marks(trace) == Marks(trace[..n]) + Marks(trace[n..])
  {
  }

  lemma GroupMarks(c: Call, g: seq<ExecutionRecord>)
    requires GroupOf(c, g)
    ensures Marks(g) == Lifecycles(c)
  {
  }

  lemma {:induction false} TraceMarks(calls: seq<Call>, trace: seq<ExecutionRecord>)
    requires TraceOf(calls, trace)
    ensures Marks(trace) == RunLifecycles(calls)
  {
    if calls != [] {
      var c := calls[|calls| - 1];
      var n: nat :| n <= |trace| && TraceOf(calls[..|calls| - 1], trace[..n]) && GroupOf(c, trace[n..]);
      TraceMarks(calls[..|calls| - 1], trace[..n]);
      GroupMarks(c, trace[n..]);
      MarksSplit(trace, n);
    }
  }

  function CountOf(ls: seq<Lifecycle>, l: Lifecycle): nat {
    if ls == [] then 0 else CountOf(ls[..|ls| - 1], l) + if ls[|ls| - 1] == l then 1 else 0
  }

  lemma {:induction false} CountConcat(a: seq<Lifecycle>, b: seq<Lifecycle>, l: Lifecycle)
    ensures CountOf(a + b, l) == CountOf(a, l) + CountOf(b, l)
  {
    if b == [] {
      assert a + b == a;
    } else {
      assert (a + b)[..|a + b| - 1] == a + b[..|b| - 1];
      CountConcat(a, b[..|b| - 1], l);
    }
  }

  predicate Admitted(c: Call) { ValidEnvelope(c.envelope) }

  function Leaves(l: Lifecycle): Call -> bool { c => l in Lifecycles(c) }

  function CountCalls(calls: seq<Call>, p: Call -> bool): nat {
    if calls == [] then 0 else CountCalls(calls[..|calls| - 1], p) + if p(calls[|calls| - 1]) then 1 else 0
  }

  lemma GroupCounts(c: Call, l: Lifecycle)
    ensures CountOf(Lifecycles(c), l) == if l in Lifecycles(c) then 1 else 0
  {
    var ls := Lifecycles(c);
    if |ls| == 2 {
      assert ls[..1] == [Dispatched] && [Dispatched][..0] == [];
    } else if |ls| == 3 {
      assert ls[..2] == [Dispatched, Started] && [Dispatched, Started][..1] == [Dispatched] && [Dispatched][..0] == [];
    }
  }

  lemma {:induction false} RunCounts(calls: seq<Call>, l: Lifecycle)
    ensures CountOf(RunLifecycles(calls), l) == CountCalls(calls, Leaves(l))
  {
    if calls != [] {
      RunCounts(calls[..|calls| - 1], l);
      CountConcat(RunLifecycles(calls[..|calls| - 1]), Lifecycles(calls[|calls| - 1]), l);
      GroupCounts(calls[|calls| - 1], l);
    }
  }

  lemma {:induction false} CallsSplit(calls: seq<Call>)
    ensures CountCalls(calls, Leaves(Dispatched))
         == CountCalls(calls, Leaves(Completed)) + CountCalls(calls, Leaves(Failed))
    ensures CountCalls(calls, Leaves(Dispatched)) == CountCalls(calls, Admitted)
    ensures CountCalls(calls, Leaves(Completed)) == CountCalls(calls, Completes)
  {
    if calls != [] { CallsSplit(calls[..|calls| - 1]); }
  }

  /** Every dispatch of a valid envelope is accounted for: it completed or it failed, and the trace shows as many
      completions as calls that complete. */
  lemma EveryDispatchEnds(calls: seq<Call>, trace: seq<ExecutionRecord>)
    requires TraceOf(calls, trace)
    ensures CountOf(Marks(trace), Dispatched) == CountCalls(calls, Admitted)
    ensures CountOf(Marks(trace), Dispatched) == CountOf(Marks(trace), Completed) + CountOf(Marks(trace), Failed)
    ensures CountOf(Marks(trace), Completed) == CountCalls(calls, Completes)
  {
    TraceMarks(calls, trace);
    RunCounts(calls, Dispatched);
    RunCounts(calls, Completed);
    RunCounts(calls, Failed);
    CallsSplit(calls);
  }

  // ---------- Reading a trace back ----------

  datatype Reader = Idle | Open | Running | Broken

  /** A reader of lifecycles alone. */
  function Read(s: Reader, l: Lifecycle): Reader {
    if s == Idle && l == Dispatched then Open
    else if s == Open && l == Started then Running
    else if s == Open && l == Failed then Idle
    else if s == Running && (l == Completed || l == Failed) then Idle
    else Broken
  }

  function ReadFrom(s: Reader, ls: seq<Lifecycle>): Reader
    decreases |ls|
  {
    if ls == [] then s else ReadFrom(Read(s, ls[0]), ls[1..])
  }

  lemma {:induction false} ReadConcat(s: Reader, a: seq<Lifecycle>, b: seq<Lifecycle>)
    ensures ReadFrom(s, a + b) == ReadFrom(ReadFrom(s, a), b)
    decreases |a|
  {
    if a == [] {
      assert a + b == b;
    } else {
      assert (a + b)[1..] == a[1..] + b;
      ReadConcat(Read(s, a[0]), a[1..], b);
    }
  }

  lemma ReadThree(s: Reader, a: Lifecycle, b: Lifecycle, c: Lifecycle)
    ensures ReadFrom(s, [a, b]) == Read(Read(s, a), b)
    ensures ReadFrom(s, [a, b, c]) == Read(Read(Read(s, a), b), c)
  {
    assert [c][1..] == [] && [b, c][1..] == [c] && [a, b, c][1..] == [b, c];
    assert [b][1..] == [] && [a, b][1..] == [b];
    assert ReadFrom(Read(s, a), [b]) == Read(Read(s, a), b);
    assert ReadFrom(Read(Read(s, a), b), [c]) == Read(Read(Read(s, a), b), c);
  }

  lemma {:induction false} RunParses(calls: seq<Call>)
    ensures ReadFrom(Idle, RunLifecycles(calls)) == Idle
  {
    if calls != [] {
      RunParses(calls[..|calls| - 1]);
      ReadConcat(Idle, RunLifecycles(calls[..|calls| - 1]), Lifecycles(calls[|calls| - 1]));
      ReadThree(Idle, Dispatched, Failed, Failed);
      ReadThree(Idle, Dispatched, Started, Failed);
      ReadThree(Idle, Dispatched, Started, Completed);
    }
  }

  /** The trace of any run parses, without a look at ids, as groups of the three shapes. */
  lemma TracesParse(calls: seq<Call>, trace: seq<ExecutionRecord>)
    requires TraceOf(calls, trace)
    ensures ReadFrom(Idle, Marks(trace)) == Idle
  {
    TraceMarks(calls, trace);
    RunParses(calls);
  }
}
