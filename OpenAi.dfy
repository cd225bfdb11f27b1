/** The translation client of src/openai.rs: the request record, the retry
    counter with its exponential backoff, the `send` loop over the replies of
    the service, and the post-processing of a successful reply. The HTTP
    exchange itself is replaced by a script: `reply(n)` is what the n-th
    request (counting from 0) gets back. */
module OpenAi {
  import opened Common

  /** `max_retries` in `send` */
  const MaxRetries: nat := 5

  /** HTTP status 200 */
  const StatusOk: nat := 200

  datatype AiRequest = AiRequest(model: string, instructions: string, input: string)

  /** `AiRequest::new`: the model is always the same one; the two texts are
      stored as they are given. */
  function NewRequest(instructions: string, input: string): (req: AiRequest)
    ensures req.model == "gpt-4o-mini"
    ensures req.instructions == instructions && req.input == input
  {
    AiRequest("gpt-4o-mini", instructions, input)
  }

  // The decoded reply body: output[..].content[..].text
  datatype ContentLine = ContentLine(text: string)
  datatype ResponseContent = ResponseContent(content: seq<ContentLine>)
  datatype AiResponse = AiResponse(output: seq<ResponseContent>)

  /** What one request gets back: a transport error, or a status with a body
      that either decodes as an AiResponse (Some) or does not (None). */
  datatype Reply =
    | TransportError(message: string)
    | Received(status: nat, body: Option<AiResponse>)

  /** The replies that `send` answers with `retry`. */
  predicate IsFailure(reply: Reply)
  {
    reply.TransportError? || reply.status != StatusOk
  }

  /* ---------------- trim_matches('"') ---------------- */

  ghost predicate AllQuotes(s: string)
  {
    forall k :: 0 <= k < |s| ==> s[k] == '"'
  }

  /** `trim_start_matches('"')` */
  function TrimStartQuotes(s: string): (r: string)
    ensures |r| <= |s| && r == s[|s| - |r|..]
    ensures AllQuotes(s[..|s| - |r|])
    ensures r == [] || r[0] != '"'
  {
    if s != [] && s[0] == '"' then
      var r := TrimStartQuotes(s[1..]);
      QuotePrefixGrows(s, r);
      r
    else s
  }

  /** One more leading quote in front of a trimmed tail: the tail is still
      a suffix, and what precedes it is still all quotes. */
  lemma QuotePrefixGrows(s: string, r: string)
    requires s != [] && s[0] == '"'
    requires |r| <= |s| - 1 && r == s[1..][|s| - 1 - |r|..] && AllQuotes(s[1..][..|s| - 1 - |r|])
    ensures r == s[|s| - |r|..] && AllQuotes(s[..|s| - |r|])
  {
    var n := |s| - |r|;
    assert s[1..][n - 1..] == s[n..];
    assert forall k :: 1 <= k < n ==> s[..n][k] == s[1..][..n - 1][k - 1];
  }

  /** `trim_end_matches('"')` */
  function TrimEndQuotes(s: string): (r: string)
    ensures |r| <= |s| && r == s[..|r|]
    ensures AllQuotes(s[|r|..])
    ensures r == [] || r[|r| - 1] != '"'
  {
    if s != [] && s[|s| - 1] == '"' then TrimEndQuotes(s[..|s| - 1]) else s
  }

  /** `s` with every leading and every trailing '"' removed: the result is
      the infix of `s` left between a run of quotes on each side. */
  ghost predicate QuotesTrimmed(s: string, r: string)
  {
    exists i, j :: 0 <= i <= j <= |s| && r == s[i..j] && AllQuotes(s[..i]) && AllQuotes(s[j..])
  }

  /** `trim_matches('"')`: strips ALL surrounding quotes, not a single pair. */
  function TrimQuotes(s: string): (r: string)
    ensures QuotesTrimmed(s, r)
    ensures r == [] || (r[0] != '"' && r[|r| - 1] != '"')
  {
    var t := TrimStartQuotes(s);
    var r := TrimEndQuotes(t);
    TrimmedInfix(s, t, r);
    r
  }

  /** Trimming the start and then the end leaves an infix of `s` between
      two runs of quotes, which neither starts nor ends with a quote. */
  lemma TrimmedInfix(s: string, t: string, r: string)
    requires |t| <= |s| && t == s[|s| - |t|..] && AllQuotes(s[..|s| - |t|])
    requires t == [] || t[0] != '"'
    requires |r| <= |t| && r == t[..|r|] && AllQuotes(t[|r|..])
    requires r == [] || r[|r| - 1] != '"'
    ensures QuotesTrimmed(s, r)
    ensures r == [] || (r[0] != '"' && r[|r| - 1] != '"')
  {
    var i := |s| - |t|;
    var j := i + |r|;
    assert r == s[i..j] by {
      assert t == s[i..];
      assert r == t[..|r|];
    }
    assert s[j..] == t[|r|..];
    QuotesTrimmedAt(s, r, i, j);
  }

  /** The witness for QuotesTrimmed. */
  lemma QuotesTrimmedAt(s: string, r: string, i: nat, j: nat)
    requires i <= j <= |s| && r == s[i..j] && AllQuotes(s[..i]) && AllQuotes(s[j..])
    ensures QuotesTrimmed(s, r)
  {
  }

  /** Trimming is idempotent. */
  lemma TrimQuotesIdempotent(s: string)
    ensures TrimQuotes(TrimQuotes(s)) == TrimQuotes(s)
  {
  }

  /** A text made of quotes only trims to the empty string. */
  lemma TrimQuotesOfQuotesOnly(s: string)
    requires AllQuotes(s)
    ensures TrimQuotes(s) == []
  {
  }

  /** `extract_translation_result`: the text of the first content line of the
      first output item, quotes trimmed. An empty `output` or `content` list
      makes the indexing panic. */
  function ExtractTranslationResult(response: AiResponse): (r: Result<string>)
    ensures r.Err? <==> |response.output| == 0 || |response.output[0].content| == 0
    ensures r.Err? ==> r.error.Panic?
    ensures r.Ok? ==> QuotesTrimmed(response.output[0].content[0].text, r.value)
    ensures r.Ok? ==> r.value == [] || (r.value[0] != '"' && r.value[|r.value| - 1] != '"')
  {
    if |response.output| == 0 || |response.output[0].content| == 0 then
      Err(Panic("index out of bounds"))
    else
      Ok(TrimQuotes(response.output[0].content[0].text))
  }

  /* ---------------- retry and backoff ---------------- */

  function Pow2(n: nat): (p: nat)
    ensures p >= 1
  {
    if n == 0 then 1 else 2 * Pow2(n - 1)
  }

  /** The counter after a granted retry, and the backoff computed for it. */
  datatype Backoff = Backoff(retries: nat, waitMs: nat)

  /** `retry`: bails once the counter exceeds the budget; otherwise computes
      the wait `2^retries * 100` (whose sleep is never awaited, so no delay
      happens) and increments the counter by one. */
  function Retry(maxRetries: nat, retries: nat): (r: Result<Backoff>)
    ensures r.Err? <==> retries > maxRetries
    ensures r.Err? ==> r.error == RetriesExhausted(maxRetries)
    ensures r.Ok? ==> r.value.retries == retries + 1 && r.value.waitMs == 100 * Pow2(retries)
  {
    if retries > maxRetries then Err(RetriesExhausted(maxRetries))
    else Ok(Backoff(retries + 1, Pow2(retries) * 100))
  }

  /** The waits a run of retries computes: 100 * 2^j for j = lo .. hi-1,
      that is 100, 200, 400, ... when `lo` is 0. */
  function BackoffSchedule(lo: nat, hi: nat): (waits: seq<nat>)
    requires lo <= hi
    ensures |waits| == hi - lo
    ensures forall j :: 0 <= j < |waits| ==> waits[j] == 100 * Pow2(lo + j)
    decreases hi - lo
  {
    if lo == hi then [] else [100 * Pow2(lo)] + BackoffSchedule(lo + 1, hi)
  }

  /** Consecutive backoffs double, starting at 100 ms. */
  lemma {:induction false} BackoffDoubles(maxRetries: nat, retries: nat)
    requires retries < maxRetries
    ensures Retry(maxRetries, 0) == Ok(Backoff(1, 100))
    ensures Retry(maxRetries, retries + 1).value.waitMs == 2 * Retry(maxRetries, retries).value.waitMs
  {
  }

  /* ---------------- send ---------------- */

  /** What a call of `send` produced: its result, how many requests it made,
      and the backoff values it computed on the way. */
  datatype SendTrace = SendTrace(result: Result<string>, requests: nat, waits: seq<nat>)

  /** The result `send` gives for a reply it does not retry. */
  function Settle(reply: Reply): (r: Result<string>)
    requires !IsFailure(reply)
  {
    match reply.body
    case Some(response) => ExtractTranslationResult(response)
    case None => Err(DecodeFailed)
  }

  /** The `send` loop from counter value `retries` on: the request numbered
      `retries` is made; a reply with status OK ends the loop (decoded and
      extracted, or a decoding error that is not retried); any other reply
      goes through `retry`. */
  function SendFrom(reply: nat -> Reply, retries: nat): (t: SendTrace)
    requires retries <= MaxRetries + 1
    decreases MaxRetries + 1 - retries
  {
    if !IsFailure(reply(retries)) then
      SendTrace(Settle(reply(retries)), retries + 1, [])
    else
      match Retry(MaxRetries, retries)
      case Err(e) => SendTrace(Err(e), retries + 1, [])
      case Ok(b) =>
        var rest := SendFrom(reply, b.retries);
        SendTrace(rest.result, rest.requests, [b.waitMs] + rest.waits)
  }

  /** `OpenAI::send` over a scripted service. */
  method Send(reply: nat -> Reply) returns (r: Result<string>, requests: nat, waits: seq<nat>)
    ensures SendTrace(r, requests, waits) == SendFrom(reply, 0)
  {
    var retries: nat := 0;
    waits := [];
    while true
      invariant retries <= MaxRetries + 1
      invariant SendFrom(reply, 0) ==
        var t := SendFrom(reply, retries); SendTrace(t.result, t.requests, waits + t.waits)
      decreases MaxRetries + 1 - retries
    {
      var response := reply(retries);
      if !IsFailure(response) {
        r, requests := Settle(response), retries + 1;
        return;
      }
      var step := Retry(MaxRetries, retries);
      if step.Err? {
        r, requests := Err(step.error), retries + 1;
        return;
      }
      waits := waits + [step.value.waitMs];
      retries := step.value.retries;
    }
  }

  /** `k` failing replies (k at most 6) followed by one that is not retried:
      `send` makes exactly k + 1 requests, settles on that reply, and has
      computed the backoffs 100, 200, ..., 100 * 2^(k-1). */
  lemma {:induction false} SendSettlesAfterFailures(reply: nat -> Reply, retries: nat, k: nat)
    requires retries <= k <= MaxRetries + 1
    requires forall n :: retries <= n < k ==> IsFailure(reply(n))
    requires !IsFailure(reply(k))
    ensures SendFrom(reply, retries) == SendTrace(Settle(reply(k)), k + 1, BackoffSchedule(retries, k))
    decreases k - retries
  {
    if retries < k {
      SendSettlesAfterFailures(reply, retries + 1, k);
    }
  }

  /** Every reply failing: `send` gives up with the exhaustion error after
      exactly 7 requests, having computed six backoffs. */
  lemma {:induction false} SendExhausts(reply: nat -> Reply, retries: nat)
    requires retries <= MaxRetries + 1
    requires forall n :: retries <= n <= MaxRetries + 1 ==> IsFailure(reply(n))
    ensures SendFrom(reply, retries) ==
      SendTrace(Err(RetriesExhausted(MaxRetries)), MaxRetries + 2, BackoffSchedule(retries, MaxRetries + 1))
    decreases MaxRetries + 1 - retries
  {
    if retries <= MaxRetries {
      SendExhausts(reply, retries + 1);
    }
  }

  /** The two scenarios above for a fresh call: 7 requests when everything
      fails; k + 1 requests and the extracted text after k <= 6 failures. */
  lemma SendScenarios(reply: nat -> Reply, k: nat, response: AiResponse)
    ensures (forall n :: IsFailure(reply(n))) ==>
      SendFrom(reply, 0) == SendTrace(Err(RetriesExhausted(5)), 7, [100, 200, 400, 800, 1600, 3200])
    ensures k <= 6 && (forall n: nat :: n < k ==> IsFailure(reply(n))) && reply(k) == Received(200, Some(response)) ==>
      SendFrom(reply, 0) == SendTrace(ExtractTranslationResult(response), k + 1, BackoffSchedule(0, k))
    ensures k <= 6 && (forall n: nat :: n < k ==> IsFailure(reply(n))) && reply(k) == Received(200, None) ==>
      SendFrom(reply, 0).result == Err(DecodeFailed) && SendFrom(reply, 0).requests == k + 1
  {
    if forall n :: IsFailure(reply(n)) {
      SendExhausts(reply, 0);
      assert BackoffSchedule(0, 6) == [100, 200, 400, 800, 1600, 3200];
    }
    if k <= 6 && (forall n: nat :: n < k ==> IsFailure(reply(n))) && !IsFailure(reply(k)) {
      SendSettlesAfterFailures(reply, 0, k);
    }
  }

  /** The counter never passes MaxRetries + 1, so at most 7 requests are made. */
  lemma {:induction false} SendRequestBound(reply: nat -> Reply, retries: nat)
    requires retries <= MaxRetries + 1
    ensures retries < SendFrom(reply, retries).requests <= MaxRetries + 2
    ensures |SendFrom(reply, retries).waits| == SendFrom(reply, retries).requests - 1 - retries
    decreases MaxRetries + 1 - retries
  {
    if IsFailure(reply(retries)) && retries <= MaxRetries {
      SendRequestBound(reply, retries + 1);
    }
  }
}
