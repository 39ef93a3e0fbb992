/** The remote calls of one summarisation run and what the run does with their
    replies, as values. The network is not modelled: each call's reply is given. */
module Pipeline {
  import opened Wrappers
  import opened JsString

  /** The three dependent remote calls of a run, in the order they are issued. */
  datatype Stage = Ingest | Summarize | Retrieve

  const Stages: seq<Stage> := [Ingest, Summarize, Retrieve]

  datatype HttpMethod = Post | Delete

  /** The request bodies the summariser sends (DELETE sends none). */
  datatype Request =
    | IngestRequest(createdObjectName: string, dataType: string, inputData: seq<string>)
    | PromptRequest(createdObjectNames: seq<string>, promptString: string,
                    inputObjectName: string, mode: string)
    | RetrieveRequest(objectName: string, returnType: string)
    | NoBody

  /** A logged response: the parsed JSON body of a POST, of which only the `value`
      field is kept, or the text body of a DELETE. */
  datatype Response = Json(value: Option<string>) | Text(text: string)

  /** One line of the call log. The component writes each line as the record
      `{method, endpoint, request, response}`; such a record is determined by the
      stage and its input and reply value for a POST, and by the object name and
      response text for a DELETE, so a line is kept as those, and its four fields
      are functions of it. */
  datatype LogEntry =
    | StageLog(stage: Stage, input: string, value: Option<string>)
    | DeleteLog(name: string, text: string)
  {
    function Verb(): HttpMethod {
      if StageLog? then Post else Delete
    }

    function EndpointPath(): string {
      if StageLog? then StageEndpoint(stage) else DeleteEndpoint(name)
    }

    function RequestBody(): Request {
      if StageLog? then StageRequest(stage, input) else NoBody
    }

    function ResponseBody(): Response {
      if StageLog? then Json(value) else Text(text)
    }
  }

  /** How a stage's call ended: a parsed reply with its HTTP ok flag, or an exception
      thrown by the request or by parsing its body. */
  datatype Reply = Replied(ok: bool, value: Option<string>) | Threw(message: string)
  {
    predicate Succeeded() { Replied? && ok }
  }

  /** How one DELETE ended: its response text was read, or it threw. */
  datatype DeleteReply = Resolved(text: string) | DeleteThrew

  /** A remote call as the network sees it. */
  datatype Call = StageCall(stage: Stage) | DeleteCall(name: string)

  const InputObjectName: string := "input_text_data"
  const SummaryObjectName: string := "summary_result"
  const PromptString: string :=
    "Summarize the following text in exactly 1-2 clear, concise sentences that capture the main points: {input_text_data}"

  const BlankInputError: string := "Please enter some text or upload a file to summarize"
  const GenericError: string := "An error occurred while summarizing"
  const NoSummary: string := "No summary generated"

  /** The names of the remote objects a successful ingest and a successful
      summarize create, in that order. */
  const CreatedNames: seq<string> := [InputObjectName, SummaryObjectName]

  /** The values given to the progress bar as the run advances. */
  const ProgressMarks: seq<int> := [0, 33, 66, 100]

  function StageEndpoint(stage: Stage): string {
    match stage
    case Ingest => "/input_data"
    case Summarize => "/apply_prompt"
    case Retrieve => "/return_data"
  }

  function StageRequest(stage: Stage, input: string): Request {
    match stage
    case Ingest => IngestRequest(InputObjectName, "strings", [input])
    case Summarize => PromptRequest([SummaryObjectName], PromptString, InputObjectName, "combine_events")
    case Retrieve => RetrieveRequest(SummaryObjectName, "pretty_text")
  }

  /** The message thrown when a stage's reply is not ok. */
  function StageError(stage: Stage): string {
    match stage
    case Ingest => "Failed to ingest data"
    case Summarize => "Failed to generate summary"
    case Retrieve => "Failed to retrieve summary"
  }

  /** An exception that ends a run: the error a stage throws when its reply is not
      ok, or one raised by the request or by parsing its reply. */
  datatype Exception = NotOk(stage: Stage) | Raised(message: string)
  {
    function Message(): string {
      if NotOk? then StageError(stage) else message
    }
  }

  /** The error shown for an exception with the given message (`err.message || …`). */
  function ErrorText(message: string): (r: string)
    ensures r != ""
    ensures message != "" ==> r == message
    ensures message == "" ==> r == GenericError
  {
    if message != "" then message else GenericError
  }

  /** The error shown when the run stops at `stage` with reply `reply`. */
  function FailureMessage(stage: Stage, reply: Reply): (r: string)
    ensures r != ""
    ensures reply.Replied? ==> r == StageError(stage)
    ensures reply.Threw? ==> r == ErrorText(reply.message)
  {
    match reply
    case Replied(_, _) => ErrorText(StageError(stage))
    case Threw(m) => ErrorText(m)
  }

  /** The summary shown after a successful run (`result.value || …`). */
  function SummaryText(value: Option<string>): (r: string)
    ensures r != ""
    ensures value.Some? && value.value != "" ==> r == value.value
    ensures value.None? || value.value == "" ==> r == NoSummary
  {
    if value.Some? && value.value != "" then value.value else NoSummary
  }

  /** What a run on non-blank input does: the calls it issues, the log entries and
      object names it appends, every value it gives the progress bar, and the step,
      summary and error it ends with. */
  datatype RunEffect = RunEffect(
    calls: seq<Call>,
    logged: seq<LogEntry>,
    created: seq<string>,
    progress: seq<int>,
    step: int,
    summary: string,
    error: string)

  /** The run, read off the stage replies: the first stage whose reply is not a
      success is the last one called; every reply that arrived is logged; each
      stage before it has created its object and advanced the progress bar. */
  function Run(input: string, ingest: Reply, prompt: Reply, retrieve: Reply): (e: RunEffect)
    // calls: strictly in stage order, each only after the previous one succeeded
    ensures 1 <= |e.calls| <= 3
    ensures forall i :: 0 <= i < |e.calls| ==> e.calls[i] == StageCall(Stages[i])
    ensures |e.calls| >= 2 <==> ingest.Succeeded()
    ensures |e.calls| == 3 <==> ingest.Succeeded() && prompt.Succeeded()
    // log: one entry per call whose reply arrived, in call order
    ensures |e.calls| - 1 <= |e.logged| <= |e.calls|
    ensures |e.logged| < |e.calls| <==>
      ingest.Threw? || (ingest.Succeeded() && prompt.Threw?)
      || (ingest.Succeeded() && prompt.Succeeded() && retrieve.Threw?)
    ensures forall i :: 0 <= i < |e.logged| ==>
      [ingest, prompt, retrieve][i].Replied? &&
      e.logged[i] == StageLog(Stages[i], input, [ingest, prompt, retrieve][i].value)
    // created objects: one name per successful creating stage
    ensures !ingest.Succeeded() ==> e.created == []
    ensures ingest.Succeeded() && !prompt.Succeeded() ==> e.created == [InputObjectName]
    ensures ingest.Succeeded() && prompt.Succeeded() ==> e.created == [InputObjectName, SummaryObjectName]
    // progress: 0, 33, 66, 100 as far as the run gets, then back to 0
    ensures |e.progress| == |e.calls| + 2 && e.progress[|e.progress| - 1] == 0
    ensures forall i :: 0 <= i < |e.progress| - 1 ==> e.progress[i] == ProgressMarks[i]
    ensures forall i :: 0 <= i < |e.progress| ==> 0 <= e.progress[i] <= 100
    // terminal state
    ensures e.step == 3 <==> ingest.Succeeded() && prompt.Succeeded() && retrieve.Succeeded()
    ensures e.step == 3 ==> e.error == "" && e.summary == SummaryText(retrieve.value)
    ensures e.step != 3 ==> e.step == 1 && e.summary == "" && e.error != ""
    ensures !ingest.Succeeded() ==> e.error == FailureMessage(Ingest, ingest)
    ensures ingest.Succeeded() && !prompt.Succeeded() ==> e.error == FailureMessage(Summarize, prompt)
    ensures ingest.Succeeded() && prompt.Succeeded() && !retrieve.Succeeded() ==>
      e.error == FailureMessage(Retrieve, retrieve)
  {
    var calls := [StageCall(Ingest), StageCall(Summarize), StageCall(Retrieve)];
    if !ingest.Succeeded() then
      RunEffect(calls[..1], Arrived(Ingest, input, ingest), [], [0, 33, 0], 1, "", FailureMessage(Ingest, ingest))
    else
      var l1 := StageLog(Ingest, input, ingest.value);
      if !prompt.Succeeded() then
        RunEffect(calls[..2], [l1] + Arrived(Summarize, input, prompt), [InputObjectName], [0, 33, 66, 0],
                  1, "", FailureMessage(Summarize, prompt))
      else
        var l2 := StageLog(Summarize, input, prompt.value);
        if !retrieve.Succeeded() then
          RunEffect(calls, [l1, l2] + Arrived(Retrieve, input, retrieve), CreatedNames, [0, 33, 66, 100, 0],
                    1, "", FailureMessage(Retrieve, retrieve))
        else
          RunEffect(calls, [l1, l2, StageLog(Retrieve, input, retrieve.value)], CreatedNames, [0, 33, 66, 100, 0],
                    3, SummaryText(retrieve.value), "")
  }

  /** What a run has done so far, threaded through its stages: the calls issued,
      the log, the tracked object names and the progress values (each including
      what was there before the run), and the message of the exception that
      ended the run, if one did. */
  datatype Trace = Trace(calls: seq<Call>, logs: seq<LogEntry>, created: seq<string>,
                         progress: seq<int>, thrown: Option<Exception>)

  /** The progress value set just before a stage's call. */
  function Mark(stage: Stage): int {
    match stage
    case Ingest => 33
    case Summarize => 66
    case Retrieve => 100
  }

  /** The remote object a stage creates when it succeeds. */
  function Creates(stage: Stage): seq<string> {
    match stage
    case Ingest => [InputObjectName]
    case Summarize => [SummaryObjectName]
    case Retrieve => []
  }

  /** One stage of the handler's try block: set the progress bar, issue the call,
      log the parsed reply, throw unless it is ok, and otherwise record the object
      the stage created. Once something has been thrown, a stage does nothing. */
  function Step(t: Trace, stage: Stage, input: string, reply: Reply): Trace {
    if t.thrown.Some? then t
    else
      var t1 := t.(progress := t.progress + [Mark(stage)], calls := t.calls + [StageCall(stage)]);
      match reply
      case Threw(m) => t1.(thrown := Some(Raised(m)))
      case Replied(ok, value) =>
        var t2 := t1.(logs := t1.logs + [StageLog(stage, input, value)]);
        if ok then t2.(created := t2.created + Creates(stage))
        else t2.(thrown := Some(NotOk(stage)))
  }

  /** The log entry a stage leaves: one if its reply arrived, none if it threw. */
  function Arrived(stage: Stage, input: string, reply: Reply): seq<LogEntry> {
    if reply.Replied? then [StageLog(stage, input, reply.value)] else []
  }

  /** The given stages, one after the other, each with its reply. */
  function StepAll(t: Trace, stages: seq<Stage>, input: string, replies: seq<Reply>): Trace
    requires |stages| == |replies|
    decreases |stages|
  {
    if stages == [] then t
    else StepAll(Step(t, stages[0], input, replies[0]), stages[1..], input, replies[1..])
  }

  /** What one stage does: nothing once something has been thrown; otherwise one
      more call and progress value, the log entry of a reply that arrived, the
      stage's exception if its reply is not a success, and its object if it is. */
  lemma StepEffect(t: Trace, stage: Stage, input: string, reply: Reply)
    ensures var r := Step(t, stage, input, reply);
      (t.thrown.Some? ==> r == t) &&
      (t.thrown.None? ==>
        r.calls == t.calls + [StageCall(stage)] && r.progress == t.progress + [Mark(stage)] &&
        r.logs == t.logs + Arrived(stage, input, reply) && r.thrown == Raises(stage, reply) &&
        r.created == t.created + (if reply.Succeeded() then Creates(stage) else []))
  {
  }

  /** Stages only ever append: the calls, the log, the tracked names and the
      progress values of the trace are extended, by at most one call and one
      progress value per stage, and an exception already thrown stays. */
  lemma {:induction false} StepAllExtends(t: Trace, stages: seq<Stage>, input: string, replies: seq<Reply>)
    requires |stages| == |replies|
    ensures var r := StepAll(t, stages, input, replies);
      t.calls <= r.calls && t.logs <= r.logs && t.created <= r.created && t.progress <= r.progress &&
      |r.calls| <= |t.calls| + |stages| && |r.progress| <= |t.progress| + |stages| &&
      (t.thrown.Some? ==> r.thrown == t.thrown)
    decreases |stages|
  {
    if stages != [] {
      var t1 := Step(t, stages[0], input, replies[0]);
      StepEffect(t, stages[0], input, replies[0]);
      StepAllExtends(t1, stages[1..], input, replies[1..]);
    }
  }

  /** Once a stage has thrown, the remaining stages change nothing. */
  lemma {:induction false} ThrownSkipsRest(t: Trace, stages: seq<Stage>, input: string, replies: seq<Reply>)
    requires |stages| == |replies| && t.thrown.Some?
    ensures StepAll(t, stages, input, replies) == t
    decreases |stages|
  {
    if stages != [] {
      ThrownSkipsRest(t, stages[1..], input, replies[1..]);
    }
  }

  /** The three stages of a run, one after the other. */
  function Staged(t: Trace, input: string, ingest: Reply, prompt: Reply, retrieve: Reply): Trace {
    StepAll(t, Stages, input, [ingest, prompt, retrieve])
  }

  /** Unfolds `Staged` into its three steps. */
  lemma StagedSteps(t: Trace, input: string, ingest: Reply, prompt: Reply, retrieve: Reply)
    ensures Staged(t, input, ingest, prompt, retrieve) ==
            Step(Step(Step(t, Ingest, input, ingest), Summarize, input, prompt), Retrieve, input, retrieve)
  {
    var rs := [ingest, prompt, retrieve];
    var t1 := Step(t, Ingest, input, ingest);
    var t2 := Step(t1, Summarize, input, prompt);
    assert Stages[1..] == [Summarize, Retrieve] && rs[1..] == [prompt, retrieve];
    assert StepAll(t, Stages, input, rs) == StepAll(t1, [Summarize, Retrieve], input, [prompt, retrieve]);
    assert StepAll(t1, [Summarize, Retrieve], input, [prompt, retrieve]) == StepAll(t2, [Retrieve], input, [retrieve]);
  }

  /** The stage-by-stage run, started after whatever the session already holds and
      after the initial progress value 0, appends to it exactly what `Run` describes,
      and throws exactly when `Run` ends in an error, with that error's message. */
  ghost predicate StagedAgrees(calls: seq<Call>, logs: seq<LogEntry>, created: seq<string>, progress: seq<int>,
                               input: string, ingest: Reply, prompt: Reply, retrieve: Reply)
  {
    var t := Staged(Trace(calls, logs, created, progress + [0], None), input, ingest, prompt, retrieve);
    var e := Run(input, ingest, prompt, retrieve);
    t.calls == calls + e.calls && t.logs == logs + e.logged &&
    t.created == created + e.created && t.progress + [0] == progress + e.progress &&
    (t.thrown.None? <==> e.step == 3) &&
    (t.thrown.Some? ==> ErrorText(t.thrown.value.Message()) == e.error)
  }

  /** The exception a stage's reply makes the handler throw, if any. */
  function Raises(stage: Stage, reply: Reply): (x: Option<Exception>)
    ensures x.None? <==> reply.Succeeded()
    ensures x.Some? ==> ErrorText(x.value.Message()) == FailureMessage(stage, reply)
  {
    match reply
    case Threw(m) => Some(Raised(m))
    case Replied(ok, _) => if ok then None else Some(NotOk(stage))
  }

  /** A run whose ingest does not succeed issues that one call, logs its reply if one
      arrived, creates nothing, and throws. */
  lemma StagedStopsAtIngest(t: Trace, input: string, ingest: Reply, prompt: Reply, retrieve: Reply)
    requires t.thrown.None? && !ingest.Succeeded()
    ensures Staged(t, input, ingest, prompt, retrieve) ==
            Trace(t.calls + [StageCall(Ingest)], t.logs + Arrived(Ingest, input, ingest), t.created,
                  t.progress + [33], Raises(Ingest, ingest))
  {
    StagedSteps(t, input, ingest, prompt, retrieve);
  }

  /** A run whose ingest succeeds and whose prompt does not issues those two calls,
      keeps the input object, and throws. */
  lemma StagedStopsAtSummarize(t: Trace, input: string, ingest: Reply, prompt: Reply, retrieve: Reply)
    requires t.thrown.None? && ingest.Succeeded() && !prompt.Succeeded()
    ensures Staged(t, input, ingest, prompt, retrieve) ==
            Trace(t.calls + [StageCall(Ingest), StageCall(Summarize)],
                  t.logs + ([StageLog(Ingest, input, ingest.value)] + Arrived(Summarize, input, prompt)),
                  t.created + [InputObjectName], t.progress + [33, 66], Raises(Summarize, prompt))
  {
    StagedSteps(t, input, ingest, prompt, retrieve);
    var t1 := Step(t, Ingest, input, ingest);
    assert t1 == Trace(t.calls + [StageCall(Ingest)], t.logs + [StageLog(Ingest, input, ingest.value)],
                       t.created + [InputObjectName], t.progress + [33], None);
    Append2(t.calls, StageCall(Ingest), [StageCall(Summarize)]);
    Append2(t.logs, StageLog(Ingest, input, ingest.value), Arrived(Summarize, input, prompt));
    Append2(t.progress, 33, [66]);
  }

  /** A run whose first two stages succeed issues all three calls, keeps both
      objects, and throws exactly when the retrieval does not succeed. */
  lemma StagedReachesRetrieve(t: Trace, input: string, ingest: Reply, prompt: Reply, retrieve: Reply)
    requires t.thrown.None? && ingest.Succeeded() && prompt.Succeeded()
    ensures Staged(t, input, ingest, prompt, retrieve) ==
            Trace(t.calls + [StageCall(Ingest), StageCall(Summarize), StageCall(Retrieve)],
                  t.logs + ([StageLog(Ingest, input, ingest.value), StageLog(Summarize, input, prompt.value)]
                            + Arrived(Retrieve, input, retrieve)),
                  t.created + CreatedNames, t.progress + [33, 66, 100], Raises(Retrieve, retrieve))
  {
    StagedSteps(t, input, ingest, prompt, retrieve);
    var l1, l2 := StageLog(Ingest, input, ingest.value), StageLog(Summarize, input, prompt.value);
    var t2 := Step(Step(t, Ingest, input, ingest), Summarize, input, prompt);
    assert t2 == Trace(t.calls + [StageCall(Ingest)] + [StageCall(Summarize)], t.logs + [l1] + [l2],
                       t.created + [InputObjectName] + [SummaryObjectName], t.progress + [33] + [66], None);
    Append3(t.calls, StageCall(Ingest), StageCall(Summarize), [StageCall(Retrieve)]);
    Append3(t.logs, l1, l2, Arrived(Retrieve, input, retrieve));
    Append3(t.created, InputObjectName, SummaryObjectName, []);
    Append3(t.progress, 33, 66, [100]);
  }

  /** Appending an element and then a sequence is appending them at once. */
  lemma Append2<T>(s: seq<T>, x: T, rest: seq<T>)
    ensures s + [x] + rest == s + ([x] + rest)
  {
  }

  /** Appending two elements and then a sequence is appending them all at once. */
  lemma Append3<T>(s: seq<T>, x: T, y: T, rest: seq<T>)
    ensures s + [x] + [y] + rest == s + ([x, y] + rest)
  {
  }

  /** The two descriptions of a run agree. */
  lemma StagedIsRun(calls: seq<Call>, logs: seq<LogEntry>, created: seq<string>, progress: seq<int>,
                    input: string, ingest: Reply, prompt: Reply, retrieve: Reply)
    ensures StagedAgrees(calls, logs, created, progress, input, ingest, prompt, retrieve)
  {
    if !ingest.Succeeded() {
      StagedIsRunAtIngest(calls, logs, created, progress, input, ingest, prompt, retrieve);
    } else if !prompt.Succeeded() {
      StagedIsRunAtSummarize(calls, logs, created, progress, input, ingest, prompt, retrieve);
    } else {
      StagedIsRunAtRetrieve(calls, logs, created, progress, input, ingest, prompt, retrieve);
    }
  }

  lemma StagedIsRunAtIngest(calls: seq<Call>, logs: seq<LogEntry>, created: seq<string>, progress: seq<int>,
                            input: string, ingest: Reply, prompt: Reply, retrieve: Reply)
    requires !ingest.Succeeded()
    ensures StagedAgrees(calls, logs, created, progress, input, ingest, prompt, retrieve)
  {
    StagedStopsAtIngest(Trace(calls, logs, created, progress + [0], None), input, ingest, prompt, retrieve);
    assert progress + [0] + [33] + [0] == progress + Run(input, ingest, prompt, retrieve).progress;
  }

  lemma StagedIsRunAtSummarize(calls: seq<Call>, logs: seq<LogEntry>, created: seq<string>, progress: seq<int>,
                               input: string, ingest: Reply, prompt: Reply, retrieve: Reply)
    requires ingest.Succeeded() && !prompt.Succeeded()
    ensures StagedAgrees(calls, logs, created, progress, input, ingest, prompt, retrieve)
  {
    StagedStopsAtSummarize(Trace(calls, logs, created, progress + [0], None), input, ingest, prompt, retrieve);
    assert progress + [0] + [33, 66] + [0] == progress + Run(input, ingest, prompt, retrieve).progress;
  }

  lemma StagedIsRunAtRetrieve(calls: seq<Call>, logs: seq<LogEntry>, created: seq<string>, progress: seq<int>,
                              input: string, ingest: Reply, prompt: Reply, retrieve: Reply)
    requires ingest.Succeeded() && prompt.Succeeded()
    ensures StagedAgrees(calls, logs, created, progress, input, ingest, prompt, retrieve)
  {
    StagedReachesRetrieve(Trace(calls, logs, created, progress + [0], None), input, ingest, prompt, retrieve);
    assert progress + [0] + [33, 66, 100] + [0] == progress + Run(input, ingest, prompt, retrieve).progress;
  }

  /** A press of the summarise button: rejected with no remote call when the input
      is blank, otherwise a run. */
  datatype Attempt = Rejected | Ran(effect: RunEffect)

  function Process(input: string, ingest: Reply, prompt: Reply, retrieve: Reply): (a: Attempt)
    ensures a.Rejected? <==> forall i :: 0 <= i < |input| ==> IsTrimmable(input[i])
    ensures a.Ran? ==> a.effect == Run(input, ingest, prompt, retrieve)
  {
    if Trim(input) == "" then Rejected else Ran(Run(input, ingest, prompt, retrieve))
  }

  function DeleteEndpoint(name: string): string {
    "/objects/" + name
  }

  /** The log entry one DELETE leaves: one if its response text was read, none if
      it threw. */
  function DeleteArrived(name: string, reply: DeleteReply): seq<LogEntry> {
    match reply
    case Resolved(text) => [DeleteLog(name, text)]
    case DeleteThrew => []
  }

  /** The remote calls of a cleanup sweep over `names`: one DELETE per name, in
      list order. */
  function DeleteCalls(names: seq<string>): (r: seq<Call>)
    ensures |r| == |names|
  {
    if names == [] then [] else DeleteCalls(names[..|names| - 1]) + [DeleteCall(names[|names| - 1])]
  }

  /** The i-th call of a sweep deletes the i-th name. */
  lemma {:induction false} DeleteCallsInOrder(names: seq<string>)
    ensures forall i :: 0 <= i < |names| ==> DeleteCalls(names)[i] == DeleteCall(names[i])
  {
    if names != [] {
      var n := |names| - 1;
      DeleteCallsInOrder(names[..n]);
      assert DeleteCalls(names) == DeleteCalls(names[..n]) + [DeleteCall(names[n])];
    }
  }

  /** The log entries of a cleanup sweep over `names` whose DELETEs ended as
      `replies`: one per resolved DELETE, in list order; a thrown one leaves none. */
  function DeleteLogs(names: seq<string>, replies: seq<DeleteReply>): (r: seq<LogEntry>)
    requires |names| == |replies|
    ensures |r| <= |names|
  {
    if names == [] then []
    else
      var n := |names| - 1;
      DeleteLogs(names[..n], replies[..n]) + DeleteArrived(names[n], replies[n])
  }

  /** One more DELETE at the end of a sweep adds its own entry at the end. */
  lemma DeleteLogsSnoc(names: seq<string>, replies: seq<DeleteReply>, name: string, reply: DeleteReply)
    requires |names| == |replies|
    ensures DeleteLogs(names + [name], replies + [reply]) == DeleteLogs(names, replies) + DeleteArrived(name, reply)
  {
    assert (names + [name])[..|names|] == names;
    assert (replies + [reply])[..|replies|] == replies;
  }

  /** The sweep over the first i + 1 names is the sweep over the first i, then the
      DELETE of name i. */
  lemma SweepStep(names: seq<string>, replies: seq<DeleteReply>, i: nat)
    requires |names| == |replies| && i < |names|
    ensures DeleteCalls(names[..i + 1]) == DeleteCalls(names[..i]) + [DeleteCall(names[i])]
    ensures DeleteLogs(names[..i + 1], replies[..i + 1]) ==
            DeleteLogs(names[..i], replies[..i]) + DeleteArrived(names[i], replies[i])
  {
    assert names[..i + 1] == names[..i] + [names[i]];
    assert replies[..i + 1] == replies[..i] + [replies[i]];
    DeleteLogsSnoc(names[..i], replies[..i], names[i], replies[i]);
  }

  /** A sweep over two lists logs what the two sweeps log, one after the other. */
  lemma {:induction false} DeleteLogsAppend(a: seq<string>, ra: seq<DeleteReply>, b: seq<string>, rb: seq<DeleteReply>)
    requires |a| == |ra| && |b| == |rb|
    ensures DeleteLogs(a + b, ra + rb) == DeleteLogs(a, ra) + DeleteLogs(b, rb)
    decreases |b|
  {
    if b == [] {
      assert a + b == a && ra + rb == ra;
    } else {
      var n := |b| - 1;
      var b', rb' := b[..n], rb[..n];
      assert b == b' + [b[n]] && rb == rb' + [rb[n]];
      assert a + b == (a + b') + [b[n]] && ra + rb == (ra + rb') + [rb[n]];
      calc {
        DeleteLogs(a + b, ra + rb);
        DeleteLogs((a + b') + [b[n]], (ra + rb') + [rb[n]]);
        { DeleteLogsSnoc(a + b', ra + rb', b[n], rb[n]); }
        DeleteLogs(a + b', ra + rb') + DeleteArrived(b[n], rb[n]);
        { DeleteLogsAppend(a, ra, b', rb'); }
        (DeleteLogs(a, ra) + DeleteLogs(b', rb')) + DeleteArrived(b[n], rb[n]);
        DeleteLogs(a, ra) + (DeleteLogs(b', rb') + DeleteArrived(b[n], rb[n]));
        { DeleteLogsSnoc(b', rb', b[n], rb[n]); }
        DeleteLogs(a, ra) + DeleteLogs(b, rb);
      }
    }
  }

  /** A DELETE that threw logs nothing and does not stop the rest of the sweep. */
  lemma ThrownDeleteSkipped(names: seq<string>, replies: seq<DeleteReply>, k: nat)
    requires |names| == |replies| && k < |names| && replies[k].DeleteThrew?
    ensures DeleteLogs(names, replies) ==
            DeleteLogs(names[..k], replies[..k]) + DeleteLogs(names[k + 1..], replies[k + 1..])
  {
    var front, rfront := names[..k], replies[..k];
    var back, rback := names[k + 1..], replies[k + 1..];
    SplitAt(names, k);
    SplitAt(replies, k);
    calc {
      DeleteLogs(names, replies);
      DeleteLogs((front + [names[k]]) + back, (rfront + [replies[k]]) + rback);
      { DeleteLogsAppend(front + [names[k]], rfront + [replies[k]], back, rback); }
      DeleteLogs(front + [names[k]], rfront + [replies[k]]) + DeleteLogs(back, rback);
      { DeleteLogsSnoc(front, rfront, names[k], replies[k]); }
      DeleteLogs(front, rfront) + DeleteLogs(back, rback);
    }
  }

  /** A sequence is its part before index k, the element at k, and the rest. */
  lemma SplitAt<T>(s: seq<T>, k: nat)
    requires k < |s|
    ensures s == (s[..k] + [s[k]]) + s[k + 1..]
  {
    assert s[..k] + [s[k]] == s[..k + 1];
  }

  /** When every DELETE resolves, the sweep logs exactly one entry per name, in order. */
  lemma {:induction false} DeleteLogsAllResolved(names: seq<string>, replies: seq<DeleteReply>)
    requires |names| == |replies|
    requires forall i :: 0 <= i < |replies| ==> replies[i].Resolved?
    ensures DeleteLogs(names, replies) ==
            seq(|names|, i requires 0 <= i < |names| => DeleteLog(names[i], replies[i].text))
  {
    if names != [] {
      var n := |names| - 1;
      DeleteLogsAllResolved(names[..n], replies[..n]);
    }
  }

  /** Every entry a sweep logs is the DELETE log of a name whose DELETE resolved:
      entry j comes from the name at index i. */
  lemma {:induction false} DeleteLogSource(names: seq<string>, replies: seq<DeleteReply>, j: nat) returns (i: nat)
    requires |names| == |replies| && j < |DeleteLogs(names, replies)|
    ensures i < |names| && replies[i].Resolved?
    ensures DeleteLogs(names, replies)[j] == DeleteLog(names[i], replies[i].text)
  {
    var n := |names| - 1;
    var front := DeleteLogs(names[..n], replies[..n]);
    assert DeleteLogs(names, replies)[..|front|] == front;
    if j < |front| {
      i := DeleteLogSource(names[..n], replies[..n], j);
    } else {
      i := n;
    }
  }
}
