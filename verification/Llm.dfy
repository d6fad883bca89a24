/**
 app/services/llm.py around the prompt: the retry loop with its usage log, and reading a batch reply
 back by index.
 */
module Llm {
  import opened Common
  import Rank

  /** One model call: the validated reply, or the exception it ended in. */
  datatype Reply<T> = Parsed(value: T) | Raised(error: string)

  datatype CallOutcome = Succeeded | Retried | Failed

  datatype LlmCall = LlmCall(attempt: int, outcome: CallOutcome, error: Option<string>)

  function LogCall(maxAttempts: int, attempt: int, error: Option<string>): LlmCall {
    LlmCall(attempt, if error.None? then Succeeded else if attempt >= maxAttempts then Failed else Retried, error)
  }

  /** What a run of `n` calls that all raised leaves in the log when the budget is `maxAttempts`. */
  ghost predicate AllRetried<T>(log: seq<LlmCall>, n: nat, replies: int -> Reply<T>) {
    && n <= |log|
    && forall k :: 1 <= k <= n ==> replies(k).Raised? && log[k - 1] == LlmCall(k, Retried, Some(replies(k).error))
  }

  /**
   `_complete`. At most `maxAttempts` calls; the log is "retried" for each call that raised, ended by
   "ok" (`Succeeded`) for the first reply that validated or by "failed" for the last call of an exhausted budget.
   */
  method Complete<T>(maxAttempts: int, replies: int -> Reply<T>) returns (result: Result<T, string>, log: seq<LlmCall>)
    ensures |log| <= if maxAttempts < 0 then 0 else maxAttempts
    ensures result.Ok? ==>
              && log != [] && AllRetried(log, |log| - 1, replies)
              && replies(|log|) == Parsed(result.value)
              && log[|log| - 1] == LlmCall(|log|, Succeeded, None)
    ensures result.Err? ==> |log| == if maxAttempts < 0 then 0 else maxAttempts
    ensures result.Err? && log != [] ==>
              && AllRetried(log, |log| - 1, replies)
              && replies(|log|) == Raised(result.error)
              && log[|log| - 1] == LlmCall(|log|, Failed, Some(result.error))
  {
    log := [];
    var lastError := "None";
    var attempt := 1;
    while attempt <= maxAttempts
      invariant attempt >= 1 && |log| == attempt - 1
      invariant maxAttempts >= 0 ==> attempt <= maxAttempts + 1
      invariant maxAttempts < 0 ==> attempt == 1
      invariant attempt <= maxAttempts ==> AllRetried(log, |log|, replies)
      invariant attempt > maxAttempts && log != [] ==>
                  && AllRetried(log, |log| - 1, replies)
                  && replies(|log|) == Raised(lastError)
                  && log[|log| - 1] == LlmCall(|log|, Failed, Some(lastError))
      decreases maxAttempts - attempt
    {
      match replies(attempt)
      case Parsed(value) =>
        log := log + [LogCall(maxAttempts, attempt, None)];
        return Ok(value), log;
      case Raised(error) =>
        lastError := error;
        log := log + [LogCall(maxAttempts, attempt, Some(error))];
        attempt := attempt + 1;
    }
    result := Err(lastError);
  }

  // --- reading the reply ----------------------------------------------------------------------

  datatype Classification = Classification(
    index: int,
    category: string,
    contentType: string,
    isCityRelevant: bool,
    confidence: real,
    levels: Rank.Levels)

  /** The strict schema makes all seven dimensions required. */
  predicate Valid(results: seq<Classification>) {
    forall i :: 0 <= i < |results| ==> Rank.Complete(results[i].levels)
  }

  /** The dict comprehension: entries for indices that were sent, a later one replacing an earlier. */
  function ByIndex(results: seq<Classification>, n: nat): map<int, Classification> {
    if results == [] then map[]
    else
      var last := results[|results| - 1];
      var before := ByIndex(results[..|results| - 1], n);
      if 0 <= last.index < n then before[last.index := last] else before
  }

  /** `results[j]` is the last result for the headline at `i`. */
  ghost predicate LastFor(results: seq<Classification>, i: int, j: nat) {
    && j < |results| && results[j].index == i
    && forall k :: j < k < |results| ==> results[k].index != i
  }

  /** A headline gets the last result that names it, and none if no result does. */
  lemma {:induction false} LastResultWins(results: seq<Classification>, n: nat, i: int)
    ensures i in ByIndex(results, n) <==> 0 <= i < n && exists j :: 0 <= j < |results| && results[j].index == i
    ensures forall j: nat :: 0 <= i < n && LastFor(results, i, j) ==>
              i in ByIndex(results, n) && ByIndex(results, n)[i] == results[j]
  {
    if results != [] {
      var m := |results| - 1;
      var init := results[..m];
      LastResultWins(init, n, i);
      forall j: nat | 0 <= i < n && LastFor(results, i, j)
        ensures i in ByIndex(results, n) && ByIndex(results, n)[i] == results[j]
      {
        if j < m {
          assert LastFor(init, i, j);
        }
      }
      if i in ByIndex(results, n) && i !in ByIndex(init, n) {
        assert results[m].index == i;
      }
      if 0 <= i < n && exists j :: 0 <= j < m && results[j].index == i {
        var j :| 0 <= j < m && results[j].index == i;
        assert init[j].index == i;
      }
    }
  }

  /** `classify_titles`: no headlines, no call. */
  method ClassifyTitles(items: nat, maxAttempts: int, replies: int -> Reply<seq<Classification>>)
    returns (result: Result<map<int, Classification>, string>, log: seq<LlmCall>)
    ensures items == 0 ==> result == Ok(map[]) && log == []
    ensures items > 0 && result.Ok? ==>
              && log != [] && replies(|log|).Parsed?
              && result.value == ByIndex(replies(|log|).value, items)
    ensures |log| <= if maxAttempts < 0 then 0 else maxAttempts
    ensures items > 0 && result.Err? ==> forall k :: 1 <= k <= maxAttempts ==> replies(k).Raised?
  {
    if items == 0 {
      return Ok(map[]), [];
    }
    var parsed;
    parsed, log := Complete(maxAttempts, replies);
    match parsed
    case Err(error) =>
      assert forall k :: 1 <= k < |log| ==> log[k - 1] == LlmCall(k, Retried, Some(replies(k).error));
      result := Err(error);
    case Ok(results) =>
      result := Ok(ByIndex(results, items));
  }
}
