/** The state of the DataSummarizer component and the handlers that change it.
    Each remote call is replaced by the reply it gets, which the caller supplies. */
module Session {
  import opened Wrappers
  import opened JsString
  import opened Pipeline

  class DataSummarizer {
    var currentStep: int
    var inputText: string
    /** The name of the uploaded file, or None for `null`. */
    var file: Option<string>
    var loading: bool
    var progress: int
    var summary: string
    var error: string
    var apiLogs: seq<LogEntry>
    var createdObjects: seq<string>

    /** Every remote call issued so far, in order, including those that threw. */
    ghost var calls: seq<Call>
    /** Every value ever given to the progress bar, in order. */
    ghost var progressTrace: seq<int>

    ghost predicate Valid()
      reads this
    {
      1 <= currentStep <= 3 && 0 <= progress <= 100
    }

    /** The initial state of every piece of component state. */
    constructor ()
      ensures Valid()
      ensures currentStep == 1 && inputText == "" && file == None && !loading
      ensures progress == 0 && summary == "" && error == ""
      ensures apiLogs == [] && createdObjects == [] && calls == [] && progressTrace == []
    {
      currentStep, inputText, file, loading := 1, "", None, false;
      progress, summary, error := 0, "", "";
      apiLogs, createdObjects := [], [];
      calls, progressTrace := [], [];
    }

    /** Typing in the text area replaces the input text. */
    method EditText(text: string)
      requires Valid()
      modifies this`inputText
      ensures Valid() && inputText == text
    {
      inputText := text;
    }

    /** Appends one entry to the call log and changes nothing else. */
    method LogApiCall(entry: LogEntry)
      requires Valid()
      modifies this`apiLogs
      ensures Valid()
      ensures apiLogs == old(apiLogs) + [entry]
    {
      apiLogs := apiLogs + [entry];
    }

    method SetProgress(value: int)
      requires Valid() && 0 <= value <= 100
      modifies this`progress, this`progressTrace
      ensures Valid() && progress == value && progressTrace == old(progressTrace) + [value]
    {
      progress := value;
      progressTrace := progressTrace + [value];
    }

    /** What the session holds of a run's trace, with `thrown` in flight. */
    ghost function TraceOf(thrown: Option<Exception>): Trace
      reads this
    {
      Trace(calls, apiLogs, createdObjects, progressTrace, thrown)
    }

    /** One stage of the try block: set the progress bar, issue the call, log the
        parsed reply, check its status and throw if it is not ok, and otherwise
        track the object the stage created. Returns the message thrown, if any. */
    method RunStage(stage: Stage, reply: Reply) returns (thrown: Option<Exception>)
      requires Valid()
      modifies this`apiLogs, this`calls, this`createdObjects, this`progress, this`progressTrace
      ensures Valid()
      ensures TraceOf(thrown) == Step(old(TraceOf(None)), stage, inputText, reply)
      ensures progress == Mark(stage)
    {
      SetProgress(Mark(stage));
      calls := calls + [StageCall(stage)];
      match reply
      case Threw(m) =>
        thrown := Some(Raised(m));
      case Replied(ok, value) =>
        LogApiCall(StageLog(stage, inputText, value));
        if !ok {
          thrown := Some(NotOk(stage));
        } else {
          createdObjects := createdObjects + Creates(stage);
          thrown := None;
        }
    }

    /** The try block: the three stages in order, stopping at the first one that
        throws; after the last one succeeds, show the retrieved summary in step 3. */
    method RunStages(ingest: Reply, prompt: Reply, retrieve: Reply) returns (thrown: Option<Exception>)
      requires Valid()
      modifies this`apiLogs, this`calls, this`createdObjects, this`progress, this`progressTrace,
               this`summary, this`currentStep
      ensures Valid()
      ensures TraceOf(thrown) == Staged(old(TraceOf(None)), inputText, ingest, prompt, retrieve)
      ensures thrown.None? ==> summary == SummaryText(retrieve.value) && currentStep == 3
      ensures thrown.Some? ==> summary == old(summary) && currentStep == old(currentStep)
      ensures |progressTrace| > 0 && progress == progressTrace[|progressTrace| - 1]
      ensures thrown.None? ==> progress == 100
    {
      StagedSteps(TraceOf(None), inputText, ingest, prompt, retrieve);
      thrown := RunStage(Ingest, ingest);
      if thrown.None? {
        thrown := RunStage(Summarize, prompt);
        if thrown.None? {
          thrown := RunStage(Retrieve, retrieve);
          if thrown.None? {
            summary := SummaryText(retrieve.value);
            currentStep := 3;
          }
        }
      }
    }

    /** The start of a run: the spinner on, no error, no summary, step 2, progress 0. */
    method BeginRun()
      requires Valid()
      modifies this`loading, this`error, this`summary, this`currentStep, this`progress, this`progressTrace
      ensures Valid()
      ensures loading && error == "" && summary == "" && currentStep == 2
      ensures progress == 0 && progressTrace == old(progressTrace) + [0]
    {
      loading := true;
      error := "";
      summary := "";
      currentStep := 2;
      SetProgress(0);
    }

    /** The catch and finally blocks: an exception sets its message (or the generic
        one) as the error and returns to step 1; whatever happened, the spinner stops
        and the progress bar goes back to 0. */
    method EndRun(thrown: Option<Exception>)
      requires Valid()
      modifies this`loading, this`error, this`currentStep, this`progress, this`progressTrace
      ensures Valid()
      ensures thrown.Some? ==> error == ErrorText(thrown.value.Message()) && currentStep == 1
      ensures thrown.None? ==> error == old(error) && currentStep == old(currentStep)
      ensures !loading && progress == 0 && progressTrace == old(progressTrace) + [0]
    {
      if thrown.Some? {
        error := ErrorText(thrown.value.Message());
        currentStep := 1;
      }
      loading := false;
      SetProgress(0);
    }

    /** Everything the summarise button does once the input is not blank: the run
        starts, its stages run, and it ends. */
    method StartRun(ingest: Reply, prompt: Reply, retrieve: Reply)
      requires Valid()
      modifies this
      ensures Valid()
      ensures inputText == old(inputText) && file == old(file)
      ensures var t := Staged(Trace(old(calls), old(apiLogs), old(createdObjects), old(progressTrace) + [0], None),
                              old(inputText), ingest, prompt, retrieve);
        calls == t.calls && apiLogs == t.logs && createdObjects == t.created &&
        progressTrace == t.progress + [0] &&
        currentStep == (if t.thrown.None? then 3 else 1) &&
        summary == (if t.thrown.None? then SummaryText(retrieve.value) else "") &&
        error == (if t.thrown.None? then "" else ErrorText(t.thrown.value.Message())) &&
        !loading && progress == 0
    {
      BeginRun();
      ghost var start := TraceOf(None);
      assert start == Trace(old(calls), old(apiLogs), old(createdObjects), old(progressTrace) + [0], None);
      var thrown := RunStages(ingest, prompt, retrieve);
      ghost var t := TraceOf(thrown);
      assert t == Staged(start, old(inputText), ingest, prompt, retrieve);
      EndRun(thrown);
    }

    /** The summarise button: blank input only sets the "please enter some text"
        error and changes nothing else; any other input starts a run. */
    method ProcessData(ingest: Reply, prompt: Reply, retrieve: Reply)
      requires Valid()
      modifies this
      ensures Valid()
      ensures inputText == old(inputText) && file == old(file)
      ensures Process(old(inputText), ingest, prompt, retrieve).Rejected? ==>
        error == BlankInputError &&
        currentStep == old(currentStep) && progress == old(progress) &&
        summary == old(summary) && loading == old(loading) &&
        apiLogs == old(apiLogs) && createdObjects == old(createdObjects) &&
        calls == old(calls) && progressTrace == old(progressTrace)
      ensures Process(old(inputText), ingest, prompt, retrieve).Ran? ==>
        var e := Process(old(inputText), ingest, prompt, retrieve).effect;
        calls == old(calls) + e.calls && apiLogs == old(apiLogs) + e.logged &&
        createdObjects == old(createdObjects) + e.created &&
        progressTrace == old(progressTrace) + e.progress &&
        currentStep == e.step && summary == e.summary && error == e.error &&
        !loading && progress == 0
    {
      if Trim(inputText) == "" {
        error := BlankInputError;
      } else {
        StartRun(ingest, prompt, retrieve);
        StagedIsRun(old(calls), old(apiLogs), old(createdObjects), old(progressTrace),
                    inputText, ingest, prompt, retrieve);
      }
    }

    /** The clear button: empties the input, the file, the summary and the error and
        returns to the first step; the logs, the tracked objects and the progress
        are left as they are. */
    method ClearAll()
      requires Valid()
      modifies this
      ensures Valid()
      ensures inputText == "" && file == None && summary == "" && error == "" && currentStep == 1
      ensures loading == old(loading) && progress == old(progress)
      ensures apiLogs == old(apiLogs) && createdObjects == old(createdObjects)
      ensures calls == old(calls) && progressTrace == old(progressTrace)
    {
      inputText := "";
      file := None;
      summary := "";
      error := "";
      currentStep := 1;
    }

    /** The cancel button: only stops the spinner and returns to the first step. */
    method Cancel()
      requires Valid()
      modifies this`loading, this`currentStep
      ensures Valid() && !loading && currentStep == 1
    {
      loading := false;
      currentStep := 1;
    }

    /** One DELETE of the cleanup sweep: the call is issued, and its response text is
        logged if it was read; an exception is swallowed. */
    method DeleteObject(name: string, reply: DeleteReply)
      requires Valid()
      modifies this`apiLogs, this`calls
      ensures Valid()
      ensures calls == old(calls) + [DeleteCall(name)]
      ensures apiLogs == old(apiLogs) + DeleteArrived(name, reply)
    {
      calls := calls + [DeleteCall(name)];
      match reply {
        case Resolved(text) =>
          LogApiCall(DeleteLog(name, text));
        case DeleteThrew =>
      }
    }

    /** The loop of the cleanup sweep: one DELETE per name, in list order, each one
        issued whatever became of the previous ones. */
    method DeleteAll(names: seq<string>, replies: seq<DeleteReply>)
      requires Valid() && |replies| == |names|
      modifies this`apiLogs, this`calls
      ensures Valid()
      ensures calls == old(calls) + DeleteCalls(names)
      ensures apiLogs == old(apiLogs) + DeleteLogs(names, replies)
    {
      var i := 0;
      while i < |names|
        invariant 0 <= i <= |names|
        invariant Swept(old(calls), old(apiLogs), names, replies, i)
      {
        DeleteObject(names[i], replies[i]);
        SweepStep(names, replies, i);
        i := i + 1;
      }
      assert names[..i] == names && replies[..i] == replies;
    }

    /** The first i DELETEs of a sweep over `names`, started with `calls0` issued and
        `logs0` logged, are all that has been added to the calls and to the log. */
    ghost predicate Swept(calls0: seq<Call>, logs0: seq<LogEntry>, names: seq<string>, replies: seq<DeleteReply>, i: nat)
      requires |names| == |replies| && i <= |names|
      reads this
    {
      calls == calls0 + DeleteCalls(names[..i]) && apiLogs == logs0 + DeleteLogs(names[..i], replies[..i])
    }

    /** The cleanup button: one DELETE per tracked name, then the list is emptied
        whatever happened. `replies[i]` is how the DELETE of `createdObjects[i]` ended. */
    method DeleteObjects(replies: seq<DeleteReply>)
      requires Valid() && |replies| == |createdObjects|
      modifies this`apiLogs, this`calls, this`createdObjects
      ensures Valid()
      ensures createdObjects == []
      ensures calls == old(calls) + DeleteCalls(old(createdObjects))
      ensures apiLogs == old(apiLogs) + DeleteLogs(old(createdObjects), replies)
    {
      DeleteAll(createdObjects, replies);
      createdObjects := [];
    }
  }
}
