/** Sequences of button presses, and what the component's handlers make of them. */
module Scenarios {
  import opened Wrappers
  import opened JsString
  import opened Pipeline
  import opened Session

  /** A second cleanup right after the first finds no tracked name: it issues no
      call and logs nothing, so the sweep is idempotent. */
  method CleanupTwice(s: DataSummarizer, replies: seq<DeleteReply>)
    requires s.Valid() && |replies| == |s.createdObjects|
    modifies s
    ensures s.createdObjects == []
    ensures s.calls == old(s.calls) + DeleteCalls(old(s.createdObjects))
    ensures s.apiLogs == old(s.apiLogs) + DeleteLogs(old(s.createdObjects), replies)
  {
    s.DeleteObjects(replies);
    s.DeleteObjects([]);
  }

  /** Two successful runs on the same text track both object names twice: names
      are appended, never deduplicated, and each run shows the retrieved summary. */
  method SummarizeTwice(s: DataSummarizer, value: Option<string>)
    requires s.Valid() && Trim(s.inputText) != ""
    modifies s
    ensures s.createdObjects == old(s.createdObjects) + CreatedNames + CreatedNames
    ensures s.currentStep == 3 && s.summary == SummaryText(value) && s.error == ""
    ensures !s.loading && s.progress == 0
  {
    var ok := Replied(true, value);
    s.ProcessData(ok, ok, ok);
    s.ProcessData(ok, ok, ok);
  }
}
