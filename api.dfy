/**
 * The HTTP client of the plugin: a bounded retry loop around `fetch`, and the
 * four backend endpoints built on it. `fetch` itself is an oracle: the i-th
 * call it receives is answered by the i-th element of an outcome sequence.
 * JSON serialisation is not modelled; bodies are kept as JSON values.
 */
module Api {
  import opened Wrappers
  import Seqs
  import Text

  datatype Json =
    | JNull
    | JBool(b: bool)
    | JNum(n: int)
    | JStr(s: string)
    | JArr(items: seq<Json>)
    | JObj(members: seq<(string, Json)>)

  datatype Verb = Get | Post

  /** The `url` and `RequestInit` (method, headers, body) handed to `fetch`. */
  datatype Request = Request(url: string, verb: Verb, headers: seq<(string, string)>, body: Option<Json>)

  /** What one call of `fetch` does: resolve to a response, or throw. */
  datatype Attempt =
    | Answered(status: int, json: Result<Json, string>)  // `json` is what `response.json()` yields
    | Thrown(reason: string)

  /** The error an attempt throws inside the loop. */
  datatype FetchError =
    | HttpError(status: int)       // `HTTP error! Status: <status>`
    | NetworkError(reason: string) // `fetch` itself threw
    | BodyError(reason: string)    // `response.json()` threw

  /** How the promise returned by `fetchWithRetries` settles. */
  datatype FetchResult = Resolved(body: Json) | Undefined | Rejected(error: FetchError)

  /** A settled call together with the number of `fetch` calls and the sleeps it made. */
  datatype Run = Run(result: FetchResult, calls: nat, sleeps: seq<int>)

  const DefaultRetries: int := 3
  const DefaultDelayMs: int := 2000
  const AddUserDelayMs: int := 3000

  /** `response.ok`. */
  predicate IsOk(status: int)
  {
    200 <= status <= 299
  }

  /**
   * The body of the `try` block for one attempt: a non-ok status, a thrown
   * `fetch` and a failing `response.json()` all end in the same `catch`.
   */
  function AttemptOutcome(a: Attempt): (r: Result<Json, FetchError>)
    ensures r.Success? <==> a.Answered? && IsOk(a.status) && a.json.Success?
    ensures r.Success? ==> r.value == a.json.value
    ensures a.Answered? && !IsOk(a.status) ==> r == Failure(HttpError(a.status))
  {
    match a
    case Thrown(reason) => Failure(NetworkError(reason))
    case Answered(status, json) =>
      if !IsOk(status) then Failure(HttpError(status))
      else match json
        case Success(body) => Success(body)
        case Failure(reason) => Failure(BodyError(reason))
  }

  /** The loop from iteration `attempt` on: what settles, how many calls and which sleeps. */
  function Retry(outcomes: seq<Attempt>, retries: int, delayMs: int, attempt: int): (r: Run)
    requires 1 <= attempt
    requires retries <= |outcomes|
    ensures r.result.Undefined? <==> attempt > retries
    ensures attempt <= retries ==> 1 <= r.calls <= retries - attempt + 1 && |r.sleeps| == r.calls - 1
    ensures attempt > retries ==> r.calls == 0 && r.sleeps == []
    decreases retries - attempt
  {
    if attempt > retries then Run(Undefined, 0, [])
    else match AttemptOutcome(outcomes[attempt - 1])
      case Success(body) => Run(Resolved(body), 1, [])
      case Failure(e) =>
        if attempt < retries then
          var rest := Retry(outcomes, retries, delayMs, attempt + 1);
          Run(rest.result, 1 + rest.calls, [delayMs] + rest.sleeps)
        else Run(Rejected(e), 1, [])
  }

  /** With no attempts allowed the loop body never runs and the call resolves to `undefined`. */
  lemma RetryWithoutAttempts(outcomes: seq<Attempt>, retries: int, delayMs: int)
    requires retries <= 0 && retries <= |outcomes|
    ensures Retry(outcomes, retries, delayMs, 1) == Run(Undefined, 0, [])
  {
  }

  /**
   * The first attempt that succeeds ends the loop with its body; every failed
   * attempt before it was followed by one sleep of `delayMs`.
   */
  lemma {:induction false} RetryFirstSuccess(outcomes: seq<Attempt>, retries: int, delayMs: int, attempt: int, k: int)
    requires 1 <= attempt && attempt - 1 <= k < retries <= |outcomes|
    requires forall i :: attempt - 1 <= i < k ==> AttemptOutcome(outcomes[i]).Failure?
    requires AttemptOutcome(outcomes[k]).Success?
    ensures Retry(outcomes, retries, delayMs, attempt) ==
      Run(Resolved(AttemptOutcome(outcomes[k]).value), k - attempt + 2, Seqs.Repeat(delayMs, k - attempt + 1))
    decreases k - attempt
  {
    if attempt - 1 < k {
      RetryFirstSuccess(outcomes, retries, delayMs, attempt + 1, k);
      assert [delayMs] + Seqs.Repeat(delayMs, k - attempt) == Seqs.Repeat(delayMs, k - attempt + 1);
    }
  }

  /**
   * When every attempt fails, `fetch` is called `retries` times, the loop
   * sleeps `retries - 1` times and rejects with the error of the last attempt.
   */
  lemma {:induction false} RetryAllFail(outcomes: seq<Attempt>, retries: int, delayMs: int, attempt: int)
    requires 1 <= attempt <= retries <= |outcomes|
    requires forall i :: attempt - 1 <= i < retries ==> AttemptOutcome(outcomes[i]).Failure?
    ensures Retry(outcomes, retries, delayMs, attempt) ==
      Run(Rejected(AttemptOutcome(outcomes[retries - 1]).error), retries - attempt + 1, Seqs.Repeat(delayMs, retries - attempt))
    decreases retries - attempt
  {
    if attempt < retries {
      RetryAllFail(outcomes, retries, delayMs, attempt + 1);
      assert [delayMs] + Seqs.Repeat(delayMs, retries - attempt - 1) == Seqs.Repeat(delayMs, retries - attempt);
    }
  }

  /**
   * `fetchWithRetries(url, options, retries, delayMs)`; the `i`-th call of
   * `fetch(url, options)` is answered by `outcomes[i]`.
   */
  method FetchWithRetries(request: Request, outcomes: seq<Attempt>, retries: int := DefaultRetries, delayMs: int := DefaultDelayMs)
    returns (run: Run)
    requires retries <= |outcomes|
    ensures run == Retry(outcomes, retries, delayMs, 1)
  {
    var attempt := 1;
    var sleeps: seq<int> := [];
    while attempt <= retries
      invariant 1 <= attempt && (attempt == 1 || attempt <= retries)
      invariant |sleeps| == attempt - 1
      invariant Retry(outcomes, retries, delayMs, 1) ==
        var rest := Retry(outcomes, retries, delayMs, attempt);
        Run(rest.result, attempt - 1 + rest.calls, sleeps + rest.sleeps)
      decreases retries - attempt
    {
      var outcome := AttemptOutcome(outcomes[attempt - 1]);
      if outcome.Success? {
        return Run(Resolved(outcome.value), attempt, sleeps);
      }
      if attempt < retries {
        sleeps := sleeps + [delayMs];
      } else {
        return Run(Rejected(outcome.error), attempt, sleeps);
      }
      attempt := attempt + 1;
    }
    run := Run(Undefined, 0, []);
  }

  const JsonContentType: (string, string) := ("Content-Type", "application/json")

  /** The value of the `api-key` header, if one is sent. */
  function ApiKey(headers: seq<(string, string)>): Option<string>
  {
    if headers == [] then None
    else if headers[0].0 == "api-key" then Some(headers[0].1)
    else ApiKey(headers[1..])
  }

  function LandingRequest(backend: string): Request
  {
    Request(backend + "/api/landing", Get, [JsonContentType], None)
  }

  function AddUserRequest(backend: string, name: string, agentId: string): Request
  {
    Request(backend + "/api/eliza/add-user", Post, [JsonContentType],
      Some(JObj([("name", JStr(name)), ("agentId", JStr(agentId))])))
  }

  function WearablesRequest(backend: string, agentId: string): Request
  {
    Request(backend + "/api/eliza/get-wearables", Get, [JsonContentType, ("api-key", agentId)], None)
  }

  function UpdateOutfitRequest(backend: string, outfitVariables: Json, agentId: string): Request
  {
    Request(backend + "/api/eliza/update-outfit", Post, [JsonContentType, ("api-key", agentId)],
      Some(JObj([("outfitVariables", outfitVariables)])))
  }

  /** The four backend routes, and what is left of a URL once the backend prefix is removed. */
  datatype Endpoint = LandingRoute | AddUserRoute | WearablesRoute | UpdateOutfitRoute

  function RouteOf(backend: string, url: string): Option<Endpoint>
  {
    if !Text.StartsWith(url, backend) then None
    else
      var path := url[|backend|..];
      if path == "/api/landing" then Some(LandingRoute)
      else if path == "/api/eliza/add-user" then Some(AddUserRoute)
      else if path == "/api/eliza/get-wearables" then Some(WearablesRoute)
      else if path == "/api/eliza/update-outfit" then Some(UpdateOutfitRoute)
      else None
  }

  /**
   * Each binding targets its own route under the backend, sends JSON, carries
   * `api-key: agentId` only for the wearables and outfit routes, and sends a
   * body only on the two POST routes.
   */
  lemma EndpointBindings(backend: string, name: string, agentId: string, outfitVariables: Json)
    ensures var r := LandingRequest(backend);
      RouteOf(backend, r.url) == Some(LandingRoute) && r.verb == Get && ApiKey(r.headers) == None && r.body == None
    ensures var r := AddUserRequest(backend, name, agentId);
      RouteOf(backend, r.url) == Some(AddUserRoute) && r.verb == Post && ApiKey(r.headers) == None
      && r.body == Some(JObj([("name", JStr(name)), ("agentId", JStr(agentId))]))
    ensures var r := WearablesRequest(backend, agentId);
      RouteOf(backend, r.url) == Some(WearablesRoute) && r.verb == Get && ApiKey(r.headers) == Some(agentId) && r.body == None
    ensures var r := UpdateOutfitRequest(backend, outfitVariables, agentId);
      RouteOf(backend, r.url) == Some(UpdateOutfitRoute) && r.verb == Post && ApiKey(r.headers) == Some(agentId)
      && r.body == Some(JObj([("outfitVariables", outfitVariables)]))
  {
    var paths := ["/api/landing", "/api/eliza/add-user", "/api/eliza/get-wearables", "/api/eliza/update-outfit"];
    forall p | p in paths
      ensures (backend + p)[..|backend|] == backend && (backend + p)[|backend|..] == p
    {
    }
  }

  /** `getResponseFromBnv(backend, retries = 3, delayMs = 2000)`. */
  method GetResponseFromBnv(backend: string, outcomes: seq<Attempt>, retries: int := DefaultRetries, delayMs: int := DefaultDelayMs)
    returns (request: Request, run: Run)
    requires retries <= |outcomes|
    ensures request == LandingRequest(backend)
    ensures run == Retry(outcomes, retries, delayMs, 1)
  {
    request := LandingRequest(backend);
    run := FetchWithRetries(request, outcomes, retries, delayMs);
  }

  /** `createMeIdUser(backend, name, agentId, retries = 3, delayMs = 3000)`. */
  method CreateMeIdUser(backend: string, name: string, agentId: string, outcomes: seq<Attempt>,
                        retries: int := DefaultRetries, delayMs: int := AddUserDelayMs)
    returns (request: Request, run: Run)
    requires retries <= |outcomes|
    ensures request == AddUserRequest(backend, name, agentId)
    ensures run == Retry(outcomes, retries, delayMs, 1)
  {
    request := AddUserRequest(backend, name, agentId);
    run := FetchWithRetries(request, outcomes, retries, delayMs);
  }

  /** `getWearables(backend, agentId, retries = 3, delayMs = 2000)`. */
  method GetWearables(backend: string, agentId: string, outcomes: seq<Attempt>,
                      retries: int := DefaultRetries, delayMs: int := DefaultDelayMs)
    returns (request: Request, run: Run)
    requires retries <= |outcomes|
    ensures request == WearablesRequest(backend, agentId)
    ensures run == Retry(outcomes, retries, delayMs, 1)
  {
    request := WearablesRequest(backend, agentId);
    run := FetchWithRetries(request, outcomes, retries, delayMs);
  }

  /** `createNewOutfit(backend, outfitVariables, agentId, retries = 3, delayMs = 2000)`. */
  method CreateNewOutfit(backend: string, outfitVariables: Json, agentId: string, outcomes: seq<Attempt>,
                         retries: int := DefaultRetries, delayMs: int := DefaultDelayMs)
    returns (request: Request, run: Run)
    requires retries <= |outcomes|
    ensures request == UpdateOutfitRequest(backend, outfitVariables, agentId)
    ensures run == Retry(outcomes, retries, delayMs, 1)
  {
    request := UpdateOutfitRequest(backend, outfitVariables, agentId);
    run := FetchWithRetries(request, outcomes, retries, delayMs);
  }
}
