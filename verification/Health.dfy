/** The health check of a connection: failed probes are counted, a success resets the count, and
    past the allowed retries the last error is reported without probing again. */
module HealthChecks {
  import opened Common

  datatype Status = Unknown | Healthy | Unhealthy

  datatype Health = Health(attempt: int, maxRetries: int, lastError: Option<string>, status: Status)

  const DEFAULT_MAX_RETRIES := 5

  function NewHealth(maxRetries: int): Health {
    Health(0, maxRetries, None, Unknown)
  }

  predicate Exhausted(h: Health) {
    h.attempt > h.maxRetries
  }

  /** The state after a check, when the server answers the probe with `error`, or well if None. */
  function AfterCheck(h: Health, error: Option<string>): Health {
    if Exhausted(h) then h
    else if error.Some? then h.(attempt := h.attempt + 1, lastError := error, status := Unhealthy)
    else h.(attempt := 0, lastError := None, status := Healthy)
  }

  function CheckError(h: Health): Option<string> {
    if Exhausted(h) then h.lastError else None
  }

  class HealthServer {
    var attempt: int
    const maxRetries: int
    var lastError: Option<string>
    var status: Status

    constructor (maxRetries: int)
      ensures View() == NewHealth(maxRetries)
    {
      this.maxRetries := maxRetries;
      attempt, lastError, status := 0, None, Unknown;
    }

    ghost function View(): Health
      reads this
    {
      Health(attempt, maxRetries, lastError, status)
    }

    method Check(serverVersion: Option<string>) returns (result: Status, err: Option<string>)
      modifies this
      ensures View() == AfterCheck(old(View()), serverVersion)
      ensures err == CheckError(old(View())) && result == status
    {
      if attempt > maxRetries {
        return status, lastError;
      }
      if serverVersion.Some? {
        lastError := serverVersion;
        status := Unhealthy;
        attempt := attempt + 1;
        return status, None;
      }
      attempt := 0;
      lastError := None;
      status := Healthy;
      return status, None;
    }
  }

  // ---------------------------------------------------------------- runs of probes

  /** How many of the latest answers in a row were failures. */
  function TrailingFailures(answers: seq<bool>): (n: nat)
    ensures n <= |answers|
    ensures forall i :: |answers| - n <= i < |answers| ==> !answers[i]
    ensures n < |answers| ==> answers[|answers| - n - 1]
  {
    if answers == [] || answers[|answers| - 1] then 0
    else 1 + TrailingFailures(answers[..|answers| - 1])
  }

  /** The health state after some checks, given the answers of the probes that were made. */
  ghost predicate Tracks(h: Health, answers: seq<bool>) {
    && h.maxRetries >= 0
    && h.attempt == TrailingFailures(answers) <= h.maxRetries + 1
    && (h.lastError.Some? <==> h.attempt > 0)
    && h.status == if answers == [] then Unknown else if answers[|answers| - 1] then Healthy else Unhealthy
  }

  /** The answers after one more check: an exhausted check does not probe. */
  function Probed(h: Health, answers: seq<bool>, error: Option<string>): seq<bool> {
    if Exhausted(h) then answers else answers + [error.None?]
  }

  lemma CheckTracks(h: Health, answers: seq<bool>, error: Option<string>)
    requires Tracks(h, answers)
    ensures Tracks(AfterCheck(h, error), Probed(h, answers, error))
  {
    var more := answers + [error.None?];
    assert more[..|more| - 1] == answers;
  }

  /** A check reports an error exactly after `maxRetries + 1` failures in a row. */
  lemma ErrorIffExhausted(h: Health, answers: seq<bool>)
    requires Tracks(h, answers)
    ensures CheckError(h).Some? <==> TrailingFailures(answers) == h.maxRetries + 1
  {
  }

  // ---------------------------------------------------------------- runs of checks

  /** The health state after a run of checks, when `errors[n]` is what the server would answer to the
      n-th one. */
  function AfterChecks(maxRetries: int, errors: seq<Option<string>>): Health {
    if errors == [] then NewHealth(maxRetries)
    else AfterCheck(AfterChecks(maxRetries, errors[..|errors| - 1]), errors[|errors| - 1])
  }

  /** The answers to the probes that such a run makes. */
  function Answers(maxRetries: int, errors: seq<Option<string>>): seq<bool> {
    if errors == [] then []
    else
      var n := |errors| - 1;
      Probed(AfterChecks(maxRetries, errors[..n]), Answers(maxRetries, errors[..n]), errors[n])
  }

  /** Over any run of checks the counter is the number of failures since the last success, and the
      run reports an error from when that number has reached `maxRetries + 1`. */
  lemma {:induction false} ChecksTrack(maxRetries: nat, errors: seq<Option<string>>)
    ensures Tracks(AfterChecks(maxRetries, errors), Answers(maxRetries, errors))
    ensures AfterChecks(maxRetries, errors).maxRetries == maxRetries
    ensures CheckError(AfterChecks(maxRetries, errors)).Some? <==>
            TrailingFailures(Answers(maxRetries, errors)) == maxRetries + 1
  {
    hide Tracks, TrailingFailures;
    if errors == [] {
      FreshTracks(maxRetries);
    } else {
      var n := |errors| - 1;
      ChecksTrack(maxRetries, errors[..n]);
      CheckTracks(AfterChecks(maxRetries, errors[..n]), Answers(maxRetries, errors[..n]), errors[n]);
    }
    ErrorIffExhausted(AfterChecks(maxRetries, errors), Answers(maxRetries, errors));
  }

  lemma FreshTracks(maxRetries: nat)
    ensures Tracks(NewHealth(maxRetries), [])
  {
  }

  /** Once an error is reported, it is reported for good and no probe is made any more. */
  lemma ErrorsStay(maxRetries: nat, errors: seq<Option<string>>, next: Option<string>)
    requires CheckError(AfterChecks(maxRetries, errors)).Some?
    ensures AfterChecks(maxRetries, errors + [next]) == AfterChecks(maxRetries, errors)
    ensures Answers(maxRetries, errors + [next]) == Answers(maxRetries, errors)
  {
    assert (errors + [next])[..|errors|] == errors;
  }

  /** Up to the check that used up the retries, the counter and the last error are those of the
      latest answers. */
  lemma {:induction false} CountsLatest(maxRetries: nat, errors: seq<Option<string>>)
    requires errors == [] || !Exhausted(AfterChecks(maxRetries, errors[..|errors| - 1]))
    ensures var h := AfterChecks(maxRetries, errors);
            && 0 <= h.attempt <= |errors|
            && (forall j :: |errors| - h.attempt <= j < |errors| ==> errors[j].Some?)
            && h.lastError == if h.attempt > 0 then errors[|errors| - 1] else None
  {
    if errors != [] {
      var n := |errors| - 1;
      var before := errors[..n];
      if before != [] {
        assert before[..n - 1] == errors[..n - 1];
      }
      CountsLatest(maxRetries, before);
    }
  }

  /** The error reported is the answer to the last probe made, and that probe and the `maxRetries`
      ones before it all failed. */
  lemma {:induction false} ErrorIsLastAnswer(maxRetries: nat, errors: seq<Option<string>>) returns (k: nat)
    requires CheckError(AfterChecks(maxRetries, errors)).Some?
    ensures maxRetries <= k < |errors| && CheckError(AfterChecks(maxRetries, errors)) == errors[k]
    ensures forall j :: k - maxRetries <= j <= k ==> errors[j].Some?
    ensures CheckError(AfterChecks(maxRetries, errors[..k])).None?
    ensures Answers(maxRetries, errors[..k + 1]) == Answers(maxRetries, errors)
  {
    hide TrailingFailures;
    ChecksTrack(maxRetries, errors);
    var n := |errors| - 1;
    var before := errors[..n];
    if Exhausted(AfterChecks(maxRetries, before)) {
      ChecksTrack(maxRetries, before);
      k := ErrorIsLastAnswer(maxRetries, before);
      assert before[..k] == errors[..k] && before[..k + 1] == errors[..k + 1];
    } else {
      k := n;
      CountsLatest(maxRetries, errors);
      ChecksTrack(maxRetries, before);
      assert errors[..n + 1] == errors;
    }
  }
}
