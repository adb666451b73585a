/** `fetchFirstSuccessful`: the ordered-source fallback every asset is retrieved
    through. The network is an oracle mapping a URL to a response or a rejection;
    the status callback and each fetch are recorded as events, in the order they
    happen. */
module Fetching {

  import opened Results
  import opened Js
  import opened Http

  /** What `fetch(url)` settles to: a response with a status and body, or a rejection. */
  datatype FetchOutcome =
    | Respond(status: int, body: string)
    | Reject(reason: JsError)

  /** An observable step of the search: the status callback for a URL, or the fetch of it. */
  datatype Event = Callback(url: string) | Fetch(url: string)

  /** The events of one search and what it settles to. */
  datatype Run = Run(events: seq<Event>, result: Result<Response, JsError>)

  const NoneSuccessful: JsError := Error("None of the URLs were successful.")

  /** What the `catch` block raises: it reads `response`, which is declared only
      inside the `try` block. */
  const ResponseNotDefined: JsError := ReferenceError("response is not defined")

  /** A response that is not ok: the loop moves on to the next candidate. */
  predicate FallsThrough(o: FetchOutcome) {
    o.Respond? && !(200 <= o.status <= 299)
  }

  /** The events of trying each of `urls` in order without stopping: for each, the
      callback on the full URL and then its fetch. */
  function Trace(urls: seq<string>, name: string): seq<Event> {
    if urls == [] then [] else [Callback(urls[0] + name), Fetch(urls[0] + name)] + Trace(urls[1..], name)
  }

  /** The search as a function of the candidates and the network. */
  function FirstSuccessful(urls: seq<string>, name: string, fetch: string -> FetchOutcome): (r: Run)
    ensures r.result.Failure? ==> r.result.error == NoneSuccessful || r.result.error == ResponseNotDefined
  {
    if urls == [] then Run([], Failure(NoneSuccessful))
    else
      var url := urls[0] + name;
      var tried := [Callback(url), Fetch(url)];
      match fetch(url)
      case Reject(_) => Run(tried, Failure(ResponseNotDefined))
      case Respond(status, body) =>
        if 200 <= status <= 299 then Run(tried, Success(Response(url, status, body)))
        else
          var rest := FirstSuccessful(urls[1..], name, fetch);
          Run(tried + rest.events, rest.result)
  }

  /** `fetchFirstSuccessful(urls, name, callback)`: for each candidate in order, append
      `name` to its path, call the callback, fetch, and return the first ok response. */
  method FetchFirstSuccessful(urls: seq<string>, name: string, fetch: string -> FetchOutcome)
    returns (events: seq<Event>, result: Result<Response, JsError>)
    ensures Run(events, result) == FirstSuccessful(urls, name, fetch)
  {
    events := [];
    var i := 0;
    while i < |urls|
      invariant 0 <= i <= |urls|
      invariant FirstSuccessful(urls, name, fetch)
                == var rest := FirstSuccessful(urls[i..], name, fetch); Run(events + rest.events, rest.result)
    {
      var url := urls[i] + name;
      events := events + [Callback(url)];
      var outcome := fetch(url);
      events := events + [Fetch(url)];
      assert urls[i..][1..] == urls[i + 1..];
      match outcome {
        case Respond(status, body) =>
          if 200 <= status <= 299 {
            result := Success(Response(url, status, body));
            return;
          }
        case Reject(_) =>
          result := Failure(ResponseNotDefined);
          return;
      }
      i := i + 1;
    }
    result := Failure(NoneSuccessful);
  }

  /** Each candidate contributes two events, its callback immediately before its
      fetch, and candidates appear strictly in list order. */
  lemma {:induction false} TraceShape(urls: seq<string>, name: string)
    ensures |Trace(urls, name)| == 2 * |urls|
    ensures forall i :: 0 <= i < |urls| ==>
              Trace(urls, name)[2 * i] == Callback(urls[i] + name) &&
              Trace(urls, name)[2 * i + 1] == Fetch(urls[i] + name)
  {
    if urls != [] {
      TraceShape(urls[1..], name);
      var t := Trace(urls, name);
      forall i | 0 <= i < |urls|
        ensures t[2 * i] == Callback(urls[i] + name) && t[2 * i + 1] == Fetch(urls[i] + name)
      {
        if i > 0 {
          assert t[2 * i] == Trace(urls[1..], name)[2 * (i - 1)];
          assert t[2 * i + 1] == Trace(urls[1..], name)[2 * (i - 1) + 1];
        }
      }
    }
  }

  /** When candidate k is the first whose fetch does not fall through, the search
      tries exactly candidates 0..k and settles on that fetch: its response if it is
      ok, and the ReferenceError of the `catch` block if it was rejected. */
  lemma {:induction false} FirstSuccessfulStopsAt(urls: seq<string>, name: string, fetch: string -> FetchOutcome, k: nat)
    requires k < |urls|
    requires forall j :: 0 <= j < k ==> FallsThrough(fetch(urls[j] + name))
    requires !FallsThrough(fetch(urls[k] + name))
    ensures FirstSuccessful(urls, name, fetch).events == Trace(urls[..k + 1], name)
    ensures fetch(urls[k] + name).Reject? ==>
              FirstSuccessful(urls, name, fetch).result == Failure(ResponseNotDefined)
    ensures fetch(urls[k] + name).Respond? ==>
              FirstSuccessful(urls, name, fetch).result
              == Success(Response(urls[k] + name, fetch(urls[k] + name).status, fetch(urls[k] + name).body))
  {
    if k == 0 {
      assert urls[..1][1..] == [];
    } else {
      assert FallsThrough(fetch(urls[0] + name));
      FirstSuccessfulStopsAt(urls[1..], name, fetch, k - 1);
      assert urls[..k + 1][1..] == urls[1..][..k];
    }
  }

  /** When every candidate falls through (in particular when there are none), the
      search tries them all and throws "None of the URLs were successful.". */
  lemma {:induction false} FirstSuccessfulExhausted(urls: seq<string>, name: string, fetch: string -> FetchOutcome)
    requires forall j :: 0 <= j < |urls| ==> FallsThrough(fetch(urls[j] + name))
    ensures FirstSuccessful(urls, name, fetch) == Run(Trace(urls, name), Failure(NoneSuccessful))
  {
    if urls != [] {
      assert FallsThrough(fetch(urls[0] + name));
      FirstSuccessfulExhausted(urls[1..], name, fetch);
    }
  }

  /** A rejected fetch ends the search: a later candidate that would answer ok is
      never tried. */
  lemma RejectionStopsSearch(a: string, b: string, name: string, fetch: string -> FetchOutcome)
    requires fetch(a + name).Reject? && fetch(b + name) == Respond(200, "")
    ensures FirstSuccessful([a, b], name, fetch) == Run(Trace([a], name), Failure(ResponseNotDefined))
  {
    FirstSuccessfulStopsAt([a, b], name, fetch, 0);
    assert [a, b][..1] == [a];
  }

  /** Every response the search returns answered ok, at the URL of one of the
      candidates with `name` appended. */
  lemma {:induction false} FirstSuccessfulIsOk(urls: seq<string>, name: string, fetch: string -> FetchOutcome)
    ensures var r := FirstSuccessful(urls, name, fetch).result;
      r.Success? ==> IsOk(r.value) && exists i :: 0 <= i < |urls| && r.value.url == urls[i] + name
  {
    if urls != [] && FallsThrough(fetch(urls[0] + name)) {
      FirstSuccessfulIsOk(urls[1..], name, fetch);
      var r := FirstSuccessful(urls, name, fetch).result;
      if r.Success? {
        var i :| 0 <= i < |urls[1..]| && r.value.url == urls[1..][i] + name;
        assert r.value.url == urls[i + 1] + name;
      }
    }
  }
}
