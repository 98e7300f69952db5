/** Which requests the model gateway refuses, with what, and how its budget runs out
    (src/bin/viper-model-gateway.rs). */
module GatewayBudget {
  import opened Outcomes
  import opened Text
  import opened Streaming
  import opened Gateway

  // ---- one request ----

  /** The request speaks the gateway's version. */
  ghost predicate Versioned(request: Request) {
    request.version == "1.0"
  }

  /** The prompt passes the provider's own test. */
  ghost predicate PromptOk(prompt: string, maxPromptChars: nat) {
    !Blank(prompt) && Utf8Length(prompt) <= maxPromptChars
  }

  /** Everything that is asked of a request before a model is called for it. */
  ghost predicate Admissible(request: Request, config: Config, remaining: nat) {
    && Versioned(request) && remaining > 0 && config.streaming
    && request.prompt.Some? && PromptOk(request.prompt.value, config.maxPromptChars)
  }

  /** The error for the first thing that is missing, in the order of the source. */
  ghost predicate RefusedAs(request: Request, config: Config, remaining: nat, e: Error) {
    if !Versioned(request) then e == Error("ERR_UNSUPPORTED_SCHEMA", "unsupported gateway version")
    else if remaining == 0 then e == Error("ERR_REQUEST_LIMIT_EXCEEDED", "model request budget exhausted")
    else if !config.streaming then e == Error("ERR_NOT_IMPLEMENTED", "streaming is not configured")
    else if request.prompt.None? then e == Error("ERR_INVALID_REQUEST", "MODEL_GENERATE requires params.prompt")
    else PromptRefusedAs(request.prompt.value, config.maxPromptChars, e)
  }

  ghost predicate PromptRefusedAs(prompt: string, maxPromptChars: nat, e: Error) {
    if Blank(prompt) then e == Error("ERR_MODEL_PROMPT_INVALID", "prompt is empty")
    else Utf8Length(prompt) > maxPromptChars && e == Error("ERR_MODEL_PROMPT_INVALID", "prompt is too long")
  }

  /** The call that a request comes to is the transport's. */
  ghost predicate ReachesTransport(request: Request, config: Config, remaining: nat) {
    forall transport :: Exchange(request, config, remaining, transport) == transport
  }

  lemma PromptExactly(prompt: string, maxPromptChars: nat)
    ensures match ValidatePrompt(prompt, maxPromptChars)
            case Completed => PromptOk(prompt, maxPromptChars)
            case Failed(code, message) =>
              !PromptOk(prompt, maxPromptChars) && PromptRefusedAs(prompt, maxPromptChars, Error(code, message))
  {
    TrimBlank(prompt);
  }

  /** Each early exit, exactly. */
  lemma EarlyExitExactly(request: Request, config: Config, remaining: nat)
    ensures match EarlyExit(request, config, remaining)
            case None => Versioned(request) && remaining > 0 && config.streaming && request.prompt.Some?
            case Some(e) =>
              && RefusedAs(request, config, remaining, e)
              && !(Versioned(request) && remaining > 0 && config.streaming && request.prompt.Some?)
  {
  }

  /** A request is answered by its transport exactly if it is admissible; any other is answered by one error frame
      with the code of what is missing, whatever the transport would have done. */
  lemma RefusedExactly(request: Request, config: Config, remaining: nat, transport: Call)
    ensures ReachesTransport(request, config, remaining) <==> Admissible(request, config, remaining)
    ensures var call := Exchange(request, config, remaining, transport);
            if Admissible(request, config, remaining) then call == transport
            else
              && call.chunks == [] && call.outcome.Failed?
              && RefusedAs(request, config, remaining, Error(call.outcome.code, call.outcome.message))
              && Frames(request.requestId, call)
                 == [Frame(request.requestId, 0, "", true, Some(Error(call.outcome.code, call.outcome.message)))]
  {
    EarlyExitExactly(request, config, remaining);
    if request.prompt.Some? {
      PromptExactly(request.prompt.value, config.maxPromptChars);
    }
    assert Exchange(request, config, remaining, Call([], Completed)) != Call([], Completed)
           || Admissible(request, config, remaining);
  }

  // ---- all requests of a gateway ----

  /** The requests that use up the budget, as long as there is any. */
  function VersionedOnes(requests: seq<Request>): nat {
    if requests == [] then 0
    else VersionedOnes(requests[..|requests| - 1]) + (if requests[|requests| - 1].version == "1.0" then 1 else 0)
  }

  /** What a gateway has left after these requests, served one by one. */
  function Left(maxRequests: nat, requests: seq<Request>): nat {
    if requests == [] then maxRequests
    else BudgetAfter(requests[|requests| - 1], Left(maxRequests, requests[..|requests| - 1]))
  }

  /** How many of them reach the transport. */
  ghost function Calls(config: Config, maxRequests: nat, requests: seq<Request>): nat {
    if requests == [] then 0
    else
      var before := requests[..|requests| - 1];
      Calls(config, maxRequests, before)
      + if ReachesTransport(requests[|requests| - 1], config, Left(maxRequests, before)) then 1 else 0
  }

  /** The budget is what it was, less the requests that speak the version, and never below zero. */
  lemma {:induction false} LeftExactly(maxRequests: nat, requests: seq<Request>)
    ensures Left(maxRequests, requests)
         == if VersionedOnes(requests) <= maxRequests then maxRequests - VersionedOnes(requests) else 0
  {
    if requests != [] {
      LeftExactly(maxRequests, requests[..|requests| - 1]);
    }
  }

  /** Never more calls than budget used up, so at most as many as the gateway was built for. */
  lemma {:induction false} CallsWithinBudget(config: Config, maxRequests: nat, requests: seq<Request>)
    ensures Calls(config, maxRequests, requests) + Left(maxRequests, requests) <= maxRequests
  {
    if requests != [] {
      var before, last := requests[..|requests| - 1], requests[|requests| - 1];
      CallsWithinBudget(config, maxRequests, before);
      RefusedExactly(last, config, Left(maxRequests, before), Call([], Completed));
    }
  }

  /** Once that many requests of the version have been served, every further one is answered by exactly one error
      frame, and no model is called for it. */
  lemma ExhaustedForGood(config: Config, maxRequests: nat, requests: seq<Request>, request: Request, transport: Call)
    requires VersionedOnes(requests) >= maxRequests && Versioned(request)
    ensures var call := Exchange(request, config, Left(maxRequests, requests), transport);
            && !ReachesTransport(request, config, Left(maxRequests, requests))
            && call.chunks == [] && call.outcome.Failed? && call.outcome.code == "ERR_REQUEST_LIMIT_EXCEEDED"
            && Frames(request.requestId, call)
               == [Frame(request.requestId, 0, "", true, Some(Error(call.outcome.code, call.outcome.message)))]
  {
    LeftExactly(maxRequests, requests);
    RefusedExactly(request, config, 0, transport);
  }

  /** And before that, none is refused for the budget. */
  lemma NotExhaustedBefore(config: Config, maxRequests: nat, requests: seq<Request>, request: Request)
    requires VersionedOnes(requests) < maxRequests
    ensures var call := Exchange(request, config, Left(maxRequests, requests), Call([], Completed));
            call.outcome.Failed? ==> call.outcome.code != "ERR_REQUEST_LIMIT_EXCEEDED"
  {
    LeftExactly(maxRequests, requests);
    RefusedExactly(request, config, Left(maxRequests, requests), Call([], Completed));
  }
}
