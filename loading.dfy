/** The six asset chains `setNight` starts: each retrieves one file of the night
    through the ordered-source fallback, decodes it, publishes it under its own
    runtime key and reports in its own status element. The decoders (blob reads,
    decompression, CSV and ECSV parsing, grouping, object URLs) are an oracle from
    an asset and its response to a value or an exception. */
module Loading {

  import opened Results
  import opened Decimal
  import opened Js
  import opened Http
  import opened Fetching
  import opened Status

  datatype Asset = Moves | HwTables | Summary | Calib | Front | Back

  /** The chains in the order `setNight` starts them. */
  const AllAssets: seq<Asset> := [Moves, HwTables, Summary, Calib, Front, Back]

  /** The two fiber-view camera images go through `loadImage`. */
  predicate IsImage(a: Asset) {
    a.Front? || a.Back?
  }

  /** The part of an asset's file name before the night. */
  function FilePrefix(a: Asset): string {
    match a
    case Moves => "/moves-"
    case HwTables => "/hwtables-"
    case Summary => "/fp-"
    case Calib => "/calib-"
    case Front => "/fvc-front-"
    case Back => "/fvc-back-"
  }

  /** The part of an asset's file name after the night. */
  function FileSuffix(a: Asset): string {
    match a
    case Moves => ".csv.gz"
    case HwTables => ".csv.gz"
    case Summary => ".ecsv"
    case Calib => ".csv"
    case Front => ".jpg"
    case Back => ".jpg"
  }

  /** The name appended to each candidate source, e.g. `/moves-20240101.csv.gz`. */
  function FileName(a: Asset, night: string): string {
    FilePrefix(a) + night + FileSuffix(a)
  }

  /** The runtime variable a successful chain redefines. */
  function Key(a: Asset): string {
    match a
    case Moves => "theMoves"
    case HwTables => "theHWTables"
    case Summary => "theSummary"
    case Calib => "theCalib"
    case Front => "theFront"
    case Back => "theBack"
  }

  /** The status element a chain reports in. */
  function Slot(a: Asset): string {
    match a
    case Moves => "load-moves"
    case HwTables => "load-hwtables"
    case Summary => "load-summary"
    case Calib => "load-calib"
    case Front => "load-front"
    case Back => "load-back"
  }

  /** What the success report calls the asset. */
  function LoadedName(a: Asset): string {
    match a
    case Moves => "moves"
    case HwTables => "hwtables"
    case Summary => "summary"
    case Calib => "calibration update"
    case Front => "front image"
    case Back => "back image"
  }

  /** The start of the failure report, up to the exception's text. */
  function FailedPrefix(a: Asset): string {
    match a
    case Moves => "Failed to load moves: "
    case HwTables => "Failed to load hwtables: "
    case Summary => "Failed to load summary: "
    case Calib => "Failed to load calibration updates: "
    case Front => "Failed to load front-illuminated image: : "
    case Back => "Failed to load back-illuminated image: : "
  }

  /** Different chains publish under different keys and report in different elements. */
  lemma KeysAndSlotsDistinct(a: Asset, b: Asset)
    requires a != b
    ensures Key(a) != Key(b) && Slot(a) != Slot(b)
  {
  }

  /** A file name determines both the asset and the night it was built from. */
  lemma FileNameInjective(a: Asset, b: Asset, n: string, m: string)
    requires FileName(a, n) == FileName(b, m)
    ensures a == b && n == m
  {
    var s := FileName(a, n);
    assert s[1] == FilePrefix(a)[1] == FilePrefix(b)[1];
    if s[1] == 'f' {
      assert s[2] == FilePrefix(a)[2] == FilePrefix(b)[2];
      if s[2] == 'v' {
        assert s[5] == FilePrefix(a)[5] == FilePrefix(b)[5];
      }
    } else if s[1] == 'c' || s[1] == 'm' || s[1] == 'h' {
    }
    assert a == b;
    var p, q := |FilePrefix(a)|, |FileSuffix(a)|;
    assert n == s[p..|s| - q];
    assert m == s[p..|s| - q];
  }

  /** What `loadImage` throws for every failure: it interpolates the `toString`
      method itself rather than calling it. */
  const LoadImageError: JsError := Error("loadImage: failed with function toString() { [native code] }")

  /** The configuration a chain runs against: the network, the decoders, the
      milliseconds `loadElapsed` reports when an asset finishes, and the `meta`
      property of a decoded summary. */
  datatype Env<!V> = Env(
    fetch: string -> FetchOutcome,
    decode: (Asset, Response) -> Result<V, JsError>,
    elapsedMs: Asset -> nat,
    meta: V -> JsValue)

  /** A chain from the settled fallback search on: the status check and the
      decoders for the data files, and `loadImage`'s blanket rewrap for images. */
  function ChainResult<V>(a: Asset, fetched: Result<Response, JsError>,
                          decode: (Asset, Response) -> Result<V, JsError>): (r: Result<V, JsError>)
    ensures IsImage(a) && r.Failure? ==> r.error == LoadImageError
    ensures !IsImage(a) && fetched.Failure? ==> r == Failure(fetched.error)
    ensures fetched.Success? && IsOk(fetched.value) ==> (r.Success? <==> decode(a, fetched.value).Success?)
    ensures fetched.Success? && IsOk(fetched.value) && decode(a, fetched.value).Success? ==> r == decode(a, fetched.value)
  {
    if IsImage(a) then
      match fetched
      case Failure(_) => Failure(LoadImageError)
      case Success(response) =>
        match decode(a, response)
        case Failure(_) => Failure(LoadImageError)
        case Success(v) => Success(v)
    else
      match fetched
      case Failure(e) => Failure(e)
      case Success(response) =>
        assert IsOk(response) ==> CheckResponseStatus(response) == Success(response);
        match CheckResponseStatus(response)
        case Failure(e) => Failure(e)
        case Success(checked) => decode(a, checked)
  }

  /** The whole chain for asset `a` over the candidate sources. */
  function ChainOf<V>(a: Asset, urls: seq<string>, night: string, env: Env<V>): Result<V, JsError>
  {
    ChainResult(a, FirstSuccessful(urls, FileName(a, night), env.fetch).result, env.decode)
  }

  /** `checkResponseStatus` never rejects what the fallback returns: a data chain
      either carries the search's own exception or is exactly the decoders' verdict
      on the first ok response. */
  lemma DataChainSkipsStatusCheck<V>(a: Asset, urls: seq<string>, night: string, env: Env<V>)
    requires !IsImage(a)
    ensures var run := FirstSuccessful(urls, FileName(a, night), env.fetch).result;
      ChainOf(a, urls, night, env) == (if run.Success? then env.decode(a, run.value) else Failure(run.error))
  {
    FirstSuccessfulIsOk(urls, FileName(a, night), env.fetch);
  }

  /** How a chain's promise settles once its value is published: the summary's
      handler goes on to read `meta.setup_id`, which throws when the decoded summary
      has no `meta`, and the chain's `catch` then reports that exception although
      the value has already been published. Every other outcome settles as it is. */
  function Settled<V>(a: Asset, outcome: Result<V, JsError>, meta: V -> JsValue): (r: Result<V, JsError>)
    ensures outcome.Failure? ==> r == outcome
    ensures outcome.Success? ==>
              (r.Failure? <==> a == Summary && Nullish(meta(outcome.value)))
    ensures r.Success? ==> r == outcome
    ensures r.Failure? && outcome.Success? ==> r.error == PropertyOfNullish(meta(outcome.value), "setup_id")
  {
    if a == Summary && outcome.Success? && Nullish(meta(outcome.value)) then
      Failure(PropertyOfNullish(meta(outcome.value), "setup_id"))
    else outcome
  }

  /** How the whole chain for asset `a` settles. */
  function SettledOf<V>(a: Asset, urls: seq<string>, night: string, env: Env<V>): Result<V, JsError> {
    Settled(a, ChainOf(a, urls, night, env), env.meta)
  }

  /** The text a chain leaves in its status element. */
  function SlotMessage<V>(a: Asset, outcome: Result<V, JsError>, ms: nat): (m: Message)
    ensures m.InfoMsg? <==> outcome.Success?
    ensures m.ErrorMsg? ==> |FailedPrefix(a)| <= |m.text| && m.text[..|FailedPrefix(a)|] == FailedPrefix(a)
  {
    match outcome
    case Success(_) => InfoMsg("Loaded " + LoadedName(a) + " in " + IntToString(ms) + "ms")
    case Failure(e) => ErrorMsg(FailedPrefix(a) + ErrorString(e))
  }

  /** An image chain's failure report says nothing about the cause: two failures
      for different reasons leave the same text. */
  lemma ImageFailureHidesCause<V>(a: Asset, f1: Result<Response, JsError>, f2: Result<Response, JsError>,
                                   decode: (Asset, Response) -> Result<V, JsError>, ms: nat)
    requires IsImage(a)
    requires ChainResult(a, f1, decode).Failure? && ChainResult(a, f2, decode).Failure?
    ensures SlotMessage(a, ChainResult(a, f1, decode), ms) == SlotMessage(a, ChainResult(a, f2, decode), ms)
    ensures SlotMessage(a, ChainResult(a, f1, decode), ms) == ErrorMsg(FailedPrefix(a) + ErrorString(LoadImageError))
  {
  }

  lemma SetupIdErrorText()
    ensures PropertyOfNullish(JsUndefined, "setup_id").message
            == "Cannot read properties of undefined (reading 'setup_id')"
    ensures "TypeError" + ": " == "TypeError: "
  {
    assert "Cannot read properties of " + "undefined" == "Cannot read properties of undefined";
    assert "Cannot read properties of undefined" + " (reading '" == "Cannot read properties of undefined (reading '";
    assert "Cannot read properties of undefined (reading '" + "setup_id"
           == "Cannot read properties of undefined (reading 'setup_id";
    assert "Cannot read properties of undefined (reading 'setup_id" + "')"
           == "Cannot read properties of undefined (reading 'setup_id')";
  }

  /** The observable state the chains write: the runtime's redefined variables and
      the status elements, each keyed by name. */
  datatype Pane<V> = Pane(store: map<string, V>, status: map<string, Message>)

  /** A chain publishes its value exactly when it succeeded and a runtime exists. */
  predicate Publishes<V>(outcome: Result<V, JsError>, runtimeSet: bool) {
    outcome.Success? && runtimeSet
  }

  /** One chain settling: `redefine` of its key on success when a runtime exists, and
      its report in its own status element. */
  function ApplyChain<V>(p: Pane<V>, a: Asset, outcome: Result<V, JsError>, runtimeSet: bool, report: Message): Pane<V> {
    Pane(if Publishes(outcome, runtimeSet) then p.store[Key(a) := outcome.value] else p.store,
         p.status[Slot(a) := report])
  }

  /** A summary without `meta` is published, and its element still reports a
      failure: the `TypeError` of reading `setup_id` from undefined. */
  lemma SummaryWithoutMetaFails<V>(p: Pane<V>, value: V, meta: V -> JsValue, ms: nat)
    requires meta(value) == JsUndefined
    ensures var q := ApplyChain(p, Summary, Success(value), true,
                                SlotMessage(Summary, Settled(Summary, Success(value), meta), ms));
      && Key(Summary) in q.store && q.store[Key(Summary)] == value
      && q.status[Slot(Summary)]
         == ErrorMsg("Failed to load summary: "
                     + ("TypeError: " + "Cannot read properties of undefined (reading 'setup_id')"))
  {
    var e := PropertyOfNullish(JsUndefined, "setup_id");
    SetupIdErrorText();
    assert ErrorString(e) == "TypeError" + ": " + e.message;
    assert Settled(Summary, Success(value), meta) == Failure(e);
  }

  /** The chains for `assets` settling one after another in list order, each with
      its outcome and its report. */
  function ApplyChains<V>(p: Pane<V>, assets: seq<Asset>, outcome: Asset -> Result<V, JsError>,
                          runtimeSet: bool, report: Asset -> Message): Pane<V>
  {
    if assets == [] then p
    else
      var last := assets[|assets| - 1];
      ApplyChain(ApplyChains(p, assets[..|assets| - 1], outcome, runtimeSet, report), last, outcome(last), runtimeSet, report(last))
  }

  /** Settling one more chain of a list extends its prefix by that chain. */
  lemma ApplyChainsSnoc<V>(p: Pane<V>, assets: seq<Asset>, i: nat, outcome: Asset -> Result<V, JsError>,
                           runtimeSet: bool, report: Asset -> Message)
    requires i < |assets|
    ensures ApplyChains(p, assets[..i + 1], outcome, runtimeSet, report)
            == ApplyChain(ApplyChains(p, assets[..i], outcome, runtimeSet, report), assets[i], outcome(assets[i]),
                          runtimeSet, report(assets[i]))
  {
    assert assets[..i + 1][..i] == assets[..i];
  }

  /** Two maps agree at a key: both lack it or both hold the same value there. */
  ghost predicate SameAt<K, T>(m1: map<K, T>, m2: map<K, T>, k: K) {
    (k in m1 <==> k in m2) && (k in m1 ==> m1[k] == m2[k])
  }

  /** A second write to the same key replaces the first. */
  lemma UpdateOverwrites<K, T>(m: map<K, T>, k: K, v1: T, v2: T)
    ensures m[k := v1][k := v2] == m[k := v2]
  {
  }

  /** Writing two different keys of a map commutes. */
  lemma UpdatesCommute<K, T>(m: map<K, T>, k1: K, v1: T, k2: K, v2: T)
    requires k1 != k2
    ensures m[k1 := v1][k2 := v2] == m[k2 := v2][k1 := v1]
  {
    assert m[k1 := v1][k2 := v2].Keys == m[k2 := v2][k1 := v1].Keys;
  }

  /** Two different chains settle to the same state in either order, so the final
      state does not depend on how their promises interleave. */
  lemma ChainsCommute<V>(p: Pane<V>, a: Asset, b: Asset, oa: Result<V, JsError>, ob: Result<V, JsError>,
                         runtimeSet: bool, ra: Message, rb: Message)
    requires a != b
    ensures ApplyChain(ApplyChain(p, a, oa, runtimeSet, ra), b, ob, runtimeSet, rb)
            == ApplyChain(ApplyChain(p, b, ob, runtimeSet, rb), a, oa, runtimeSet, ra)
  {
    KeysAndSlotsDistinct(a, b);
    UpdatesCommute(p.status, Slot(a), ra, Slot(b), rb);
    if Publishes(oa, runtimeSet) && Publishes(ob, runtimeSet) {
      UpdatesCommute(p.store, Key(a), oa.value, Key(b), ob.value);
    }
  }

  /** The keys and the elements of a list of chains. */
  function KeysOf(assets: seq<Asset>): set<string> {
    set a | a in assets :: Key(a)
  }

  function SlotsOf(assets: seq<Asset>): set<string> {
    set a | a in assets :: Slot(a)
  }

  /** One chain settling writes its own element, writes its own key exactly when
      it publishes, and leaves every other key and element as it was. */
  lemma ApplyChainFrame<V>(p: Pane<V>, a: Asset, outcome: Result<V, JsError>, runtimeSet: bool, report: Message)
    ensures var q := ApplyChain(p, a, outcome, runtimeSet, report);
      && Slot(a) in q.status && q.status[Slot(a)] == report
      && (Publishes(outcome, runtimeSet) ==> Key(a) in q.store && q.store[Key(a)] == outcome.value)
      && (!Publishes(outcome, runtimeSet) ==> q.store == p.store)
      && (forall k :: k != Key(a) ==> SameAt(q.store, p.store, k))
      && (forall k :: k != Slot(a) ==> SameAt(q.status, p.status, k))
  {
  }

  /** Per-chain isolation: once the chains for distinct `assets` have settled, each
      chain's element holds that chain's own report, each chain's key holds its own
      value if it published and is untouched otherwise, and every other key and
      element is untouched. */
  lemma {:induction false} ApplyChainsEffect<V>(p: Pane<V>, assets: seq<Asset>, outcome: Asset -> Result<V, JsError>,
                                                runtimeSet: bool, report: Asset -> Message)
    requires forall i, j :: 0 <= i < j < |assets| ==> assets[i] != assets[j]
    ensures var q := ApplyChains(p, assets, outcome, runtimeSet, report);
      && (forall a :: a in assets ==> Slot(a) in q.status && q.status[Slot(a)] == report(a))
      && (forall a :: a in assets && Publishes(outcome(a), runtimeSet) ==>
            Key(a) in q.store && q.store[Key(a)] == outcome(a).value)
      && (forall a :: a in assets && !Publishes(outcome(a), runtimeSet) ==> SameAt(q.store, p.store, Key(a)))
      && (forall k :: k !in KeysOf(assets) ==> SameAt(q.store, p.store, k))
      && (forall k :: k !in SlotsOf(assets) ==> SameAt(q.status, p.status, k))
  {
    if assets != [] {
      var init := assets[..|assets| - 1];
      var last := assets[|assets| - 1];
      ApplyChainsEffect(p, init, outcome, runtimeSet, report);
      var r := ApplyChains(p, init, outcome, runtimeSet, report);
      var q := ApplyChains(p, assets, outcome, runtimeSet, report);
      assert q == ApplyChain(r, last, outcome(last), runtimeSet, report(last));
      ApplyChainFrame(r, last, outcome(last), runtimeSet, report(last));
      assert assets == init + [last];
      assert last !in init;
      forall a | a in init
        ensures Key(a) != Key(last) && Slot(a) != Slot(last)
      {
        KeysAndSlotsDistinct(a, last);
      }
      forall a | a in assets
        ensures Slot(a) in q.status && q.status[Slot(a)] == report(a)
      {
        if a != last {
          assert a in init;
        }
      }
      forall a | a in assets && Publishes(outcome(a), runtimeSet)
        ensures Key(a) in q.store && q.store[Key(a)] == outcome(a).value
      {
        if a != last {
          assert a in init;
        }
      }
      forall a | a in assets && !Publishes(outcome(a), runtimeSet)
        ensures SameAt(q.store, p.store, Key(a))
      {
        if a != last {
          assert a in init;
        } else {
          assert Key(a) !in KeysOf(init);
        }
      }
      forall k | k !in KeysOf(assets)
        ensures SameAt(q.store, p.store, k)
      {
        assert k != Key(last) && k !in KeysOf(init);
      }
      forall k | k !in SlotsOf(assets)
        ensures SameAt(q.status, p.status, k)
      {
        assert k != Slot(last) && k !in SlotsOf(init);
      }
    }
  }
}
