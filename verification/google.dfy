/**
 * The Google Sheets collaborator as the survey engine sees it, and the
 * rate-limit retry wrapper of pkg/google/misc.go.
 *
 * A remote range read is a function from a range to either a cell grid or an
 * error; the network client itself is outside the model.
 */
module Google {
  import opened Outcomes

  /** HTTP status of a Google API error that asks the caller to back off. */
  const TooManyRequests := 429

  /** An error returned by a remote call: a `*googleapi.Error` carrying an HTTP code, or any other error. */
  datatype CallError = GoogleApiError(code: int, message: string) | OtherError(message: string)

  /** A range in A1 notation, `sheet!{startCol}{startRow}:{endCol}{endRow}`; both ends are inclusive. */
  datatype Range = Range(sheet: string, startCol: char, startRow: nat, endCol: char, endRow: nat)

  /** One row of returned cell values; the API leaves out trailing empty cells, so rows are ragged. */
  type Row = seq<string>
  type Grid = seq<Row>

  /** GSpreadsheet.ReadRange for one spreadsheet. */
  type Reader = Range -> Result<Grid, CallError>

  /** One invocation of the wrapped operation: Go's `(T, error)` pair. */
  datatype Call<T> = Call(ret: T, err: Option<CallError>)

  predicate IsRateLimited<T>(c: Call<T>) {
    c.err.Some? && c.err.value.GoogleApiError? && c.err.value.code == TooManyRequests
  }

  /** The retry loop as a state machine: still retrying after some waits, or returned. */
  datatype RetryState<T> = Retrying(waits: nat) | Returned(ret: T, err: Option<CallError>, waits: nat)

  /** One turn of the loop: a 429 costs one wait, anything else (success or other error) is returned as is. */
  function Step<T>(s: RetryState<T>, c: Call<T>): (t: RetryState<T>)
    ensures s.waits <= t.waits <= s.waits + 1
    ensures t.Retrying? <==> s.Retrying? && IsRateLimited(c)
    ensures s.Retrying? && !IsRateLimited(c) ==> t.ret == c.ret && t.err == c.err
  {
    match s
    case Returned(_, _, _) => s
    case Retrying(w) =>
      if IsRateLimited(c) then Retrying(w + 1) else Returned(c.ret, c.err, w)
  }

  /** The state after the given call outcomes, one per turn. */
  function Run<T>(s: RetryState<T>, calls: seq<Call<T>>): (r: RetryState<T>)
    ensures s.waits <= r.waits <= s.waits + |calls|
    ensures r.Retrying? ==> s.Retrying?
    decreases |calls|
  {
    if |calls| == 0 then s else Run(Step(s, calls[0]), calls[1..])
  }

  /**
   * RateLimit: performs the calls in order until one does not fail with a 429,
   * waiting once after each 429. `waits` counts the sleeps of `wait` each.
   * The source has no retry bound; the loop ends only because some call is not
   * rate limited, which the precondition states.
   */
  method RateLimit<T>(calls: seq<Call<T>>) returns (ret: T, err: Option<CallError>, waits: nat)
    requires exists i :: 0 <= i < |calls| && !IsRateLimited(calls[i])
    ensures waits < |calls| && !IsRateLimited(calls[waits])
    ensures forall j :: 0 <= j < waits ==> IsRateLimited(calls[j])
    ensures ret == calls[waits].ret && err == calls[waits].err
    ensures Run(Retrying(0), calls) == Returned(ret, err, waits)
  {
    var i := 0;
    while true
      invariant 0 <= i < |calls|
      invariant forall j :: 0 <= j < i ==> IsRateLimited(calls[j])
      invariant exists k :: i <= k < |calls| && !IsRateLimited(calls[k])
      decreases |calls| - i
    {
      var c := calls[i];
      if c.err.Some? {
        if c.err.value.GoogleApiError? && c.err.value.code == TooManyRequests {
          i := i + 1;
          continue;
        }
        ret, err, waits := c.ret, c.err, i;
        break;
      } else {
        ret, err, waits := c.ret, c.err, i;
        break;
      }
    }
    RunReturnsFirstUnlimited(calls, waits);
  }

  /** The loop returns the first outcome that is not a 429, after as many waits as there were 429s before it. */
  lemma {:induction false} RunReturnsFirstUnlimited<T>(calls: seq<Call<T>>, n: nat)
    requires n < |calls| && !IsRateLimited(calls[n])
    requires forall j :: 0 <= j < n ==> IsRateLimited(calls[j])
    ensures Run(Retrying(0), calls) == Returned(calls[n].ret, calls[n].err, n)
  {
    RunFrom(calls, n, 0);
  }

  lemma {:induction false} RunFrom<T>(calls: seq<Call<T>>, n: nat, w: nat)
    requires n < |calls| && !IsRateLimited(calls[n])
    requires forall j :: 0 <= j < n ==> IsRateLimited(calls[j])
    ensures Run(Retrying(w), calls) == Returned(calls[n].ret, calls[n].err, w + n)
    decreases n
  {
    if n == 0 {
      ReturnedIsFinal(Returned(calls[0].ret, calls[0].err, w), calls[1..]);
    } else {
      RunFrom(calls[1..], n - 1, w + 1);
    }
  }

  /** Once returned, later outcomes are never looked at. */
  lemma {:induction false} ReturnedIsFinal<T>(s: RetryState<T>, calls: seq<Call<T>>)
    requires s.Returned?
    ensures Run(s, calls) == s
    decreases |calls|
  {
    if |calls| > 0 {
      ReturnedIsFinal(s, calls[1..]);
    }
  }

  /** No retry bound: any number of consecutive 429s keeps the loop retrying, one wait each. */
  lemma {:induction false} NoRetryBound<T>(calls: seq<Call<T>>, w: nat)
    requires forall j :: 0 <= j < |calls| ==> IsRateLimited(calls[j])
    ensures Run(Retrying(w), calls) == Retrying(w + |calls|)
    decreases |calls|
  {
    if |calls| > 0 {
      NoRetryBound(calls[1..], w + 1);
    }
  }

  /** Two 429s and then a success: the success is returned after exactly two waits. */
  lemma TwoRateLimitsThenSuccess<T>(a: T, b: T, r: T, m1: string, m2: string)
    ensures Run(Retrying(0), [Call(a, Some(GoogleApiError(429, m1))), Call(b, Some(GoogleApiError(429, m2))), Call(r, None)])
         == Returned(r, None, 2)
  {
    var calls := [Call(a, Some(GoogleApiError(429, m1))), Call(b, Some(GoogleApiError(429, m2))), Call(r, None)];
    RunReturnsFirstUnlimited(calls, 2);
  }

  /** Any other error, including another API code, is returned at once with that call's result. */
  lemma {:induction false} OtherErrorReturnedAtOnce<T>(c: Call<T>, rest: seq<Call<T>>)
    requires c.err.Some? && !IsRateLimited(c)
    ensures Run(Retrying(0), [c] + rest) == Returned(c.ret, c.err, 0)
  {
    RunReturnsFirstUnlimited([c] + rest, 0);
  }
}
