/** `setNight`: switching the page to another night. It validates the request,
    records the night, refreshes the summary advice, resolves the ordered list of
    candidate sources and starts the six asset chains. The chains run here one
    after another in the order they are started; `Loading.ChainsCommute` shows the
    order does not change the final state. */
module Dashboard {

  import opened Results
  import opened Js
  import opened Text
  import opened NightId
  import opened Registry
  import opened Fetching
  import opened Status
  import opened Loading

  /** The end-of-night analysis area, `EON`. */
  const EonRoot: string := "https://data.desi.lbl.gov/desi/engineering/focalplane/endofnight/"

  /** The raw data area, `DATA`. */
  const DataRoot: string := "https://data.desi.lbl.gov/desi/spectro/data/"

  /** The status elements `setNight` writes itself. */
  const SummarySlot: string := "summary"
  const SourcesSlot: string := "srcURL"

  const InvalidExpidText: string := "Invalid eon_expid in URL query string."

  function InvalidNightText(night: string): string {
    "Invalid night: \"" + night + "\". Pick another night."
  }

  /** The verdict of the validation at the top of `setNight`: refuse with the text
      for the summary element, or go on with the exposure segment, if any, that the
      query string named. */
  datatype Gate = Refuse(message: string) | Proceed(expid: Option<string>)

  /** The night must match `nightPattern`; an `eon_expid` that is present must pass
      `validExpid`, whose result is what the data URL is extended with. */
  function CheckRequest(night: string, eonExpid: JsValue): (g: Gate)
    ensures g.Proceed? <==> MatchesNight(night) && (Nullish(eonExpid) || ValidExpid(eonExpid) != ExpidNull)
    ensures !MatchesNight(night) ==> g == Refuse(InvalidNightText(night))
    ensures MatchesNight(night) && g.Refuse? ==> g == Refuse(InvalidExpidText)
    ensures g.Proceed? ==> (g.expid.None? <==> Nullish(eonExpid))
    ensures g.Proceed? && !Nullish(eonExpid) ==> g.expid == ExpidSegment(eonExpid)
    ensures g.Proceed? && g.expid.Some? && !Fractional(eonExpid) ==> IsExpidForm(g.expid.value)
  {
    if !MatchesNight(night) then Refuse(InvalidNightText(night))
    else if Nullish(eonExpid) then Proceed(None)
    else
      match ExpidSegment(eonExpid)
      case None => Refuse(InvalidExpidText)
      case Some(segment) => Proceed(Some(segment))
  }

  /** The candidate sources, by the first rule that applies: the local directory;
      the raw data directory of the exposure the query string named; otherwise the
      end-of-night area, followed by the raw data directory of the registry's `EON`
      exposure when `validExpid` accepts it. The last rule reads the registry, and
      `validExpid` throws for a night without an `EON`. */
  function ResolveSources(night: string, expid: Option<string>, local: bool, localRoot: string,
                          assets: Option<Nights>): (r: Result<seq<string>, JsError>)
    ensures r.Failure? <==> !local && expid.None? && (assets.None? || Nullish(EonOf(night, assets.value)))
    ensures local ==> r == Success([localRoot + night])
    ensures !local && expid.Some? ==> r == Success([DataRoot + night + "/" + expid.value])
    ensures r.Success? && !local && expid.None? ==>
              && 1 <= |r.value| <= 2
              && r.value[0] == EonRoot + night
              && (|r.value| == 2 <==> ExpidSegment(EonOf(night, assets.value)).Some?)
              && (|r.value| == 2 ==> r.value[1] == DataRoot + night + "/" + ExpidSegment(EonOf(night, assets.value)).value)
  {
    if local then Success([localRoot + night])
    else if expid.Some? then Success([DataRoot + night + "/" + expid.value])
    else
      match assets
      case None => Failure(PropertyOfNullish(JsUndefined, "nights"))
      case Some(nights) =>
        var eon := EonOf(night, nights);
        match ValidExpid(eon)
        case ExpidThrows(e) => Failure(e)
        case _ =>
          match ExpidSegment(eon)
          case None => Success([EonRoot + night])
          case Some(segment) => Success([EonRoot + night, DataRoot + night + "/" + segment])
  }

  /** The text written into the `srcURL` element. */
  function SourcesText(night: string, urls: seq<string>): string {
    "Looking for " + night + " assets in [ " + Join(urls, " , ") + " ]"
  }

  /** What each chain settles to, for the sources and the night. */
  function Outcomes<V>(urls: seq<string>, night: string, env: Env<V>): Asset -> Result<V, JsError> {
    a => ChainOf(a, urls, night, env)
  }

  /** What each chain leaves in its status element: the report of how it settled. */
  function Reports<V>(urls: seq<string>, night: string, env: Env<V>): Asset -> Message {
    a => SlotMessage(a, SettledOf(a, urls, night, env), env.elapsedMs(a))
  }

  /** The page state `setNight` reads and writes: `theNight`, how many times the
      runtime's `resetUpdates` hook has been called, and the store and status
      elements. */
  datatype PageState<V> = PageState(theNight: Option<string>, resets: nat, pane: Pane<V>)

  /** What is fixed while the page runs: whether the runtime and its reset hook exist,
      where local files live, and the registry (None when it failed to load). */
  datatype Setup = Setup(resetHookSet: bool, runtimeSet: bool, localRoot: string, assets: Option<Nights>)

  /** The arguments of one call: the night, the `eon_expid` option and the `local` flag. */
  datatype Request = Request(night: string, eonExpid: JsValue, local: bool)

  /** How a call ends: refused by the validation, with an exception escaping it, or
      with the chains started over the given sources. */
  datatype NightOutcome = Rejected | Threw(error: JsError) | Launched(sources: seq<string>)

  datatype Step<V> = Step(state: PageState<V>, outcome: NightOutcome)

  /** The summary element's update when the call is not local: the registry
      advice, or the exception reading the registry raises. */
  function AdviceStep(status: map<string, Message>, setup: Setup, req: Request): (r: Result<map<string, Message>, JsError>)
    ensures r.Failure? <==> !req.local && setup.assets.None?
    ensures r.Success? && req.local ==> r.value == status
    ensures r.Success? && !req.local ==>
              && SummarySlot in r.value && r.value == status[SummarySlot := r.value[SummarySlot]]
              && (r.value[SummarySlot].InfoMsg? <==> Truthy(EonOf(req.night, setup.assets.value)))
  {
    if req.local then Success(status)
    else
      match Advice(req.night, setup.assets)
      case Failure(e) => Failure(e)
      case Success(m) => Success(status[SummarySlot := m])
  }

  /** The sources message, then the six chains settling in the order they start. */
  function LaunchPane<V>(store: map<string, V>, status: map<string, Message>, urls: seq<string>, night: string,
                         runtimeSet: bool, env: Env<V>): Pane<V>
  {
    ApplyChains(Pane(store, status[SourcesSlot := InfoMsg(SourcesText(night, urls))]), AllAssets,
                Outcomes(urls, night, env), runtimeSet, Reports(urls, night, env))
  }

  /** `setNight` as a function of the state before the call. */
  function SetNightEffect<V>(s: PageState<V>, setup: Setup, req: Request, env: Env<V>): Step<V> {
    match CheckRequest(req.night, req.eonExpid)
    case Refuse(message) =>
      Step(PageState(s.theNight, s.resets, Pane(s.pane.store, s.pane.status[SummarySlot := ErrorMsg(message)])), Rejected)
    case Proceed(expid) =>
      var resets := if setup.resetHookSet then s.resets + 1 else s.resets;
      match AdviceStep(s.pane.status, setup, req)
      case Failure(e) => Step(PageState(Some(req.night), resets, s.pane), Threw(e))
      case Success(status) =>
        match ResolveSources(req.night, expid, req.local, setup.localRoot, setup.assets)
        case Failure(e) => Step(PageState(Some(req.night), resets, Pane(s.pane.store, status)), Threw(e))
        case Success(urls) =>
          Step(PageState(Some(req.night), resets, LaunchPane(s.pane.store, status, urls, req.night, setup.runtimeSet, env)),
               Launched(urls))
  }

  /** A refused request changes nothing but the summary element: `theNight`, the
      reset hook and every stored value stay as they were. It is refused exactly
      when the night does not match the pattern or a given `eon_expid` is rejected. */
  lemma SetNightRejects<V>(s: PageState<V>, setup: Setup, req: Request, env: Env<V>)
    ensures var r := SetNightEffect(s, setup, req, env);
      r.outcome.Rejected? <==>
        !MatchesNight(req.night) || (!Nullish(req.eonExpid) && ValidExpid(req.eonExpid) == ExpidNull)
    ensures var r := SetNightEffect(s, setup, req, env);
      r.outcome.Rejected? ==>
        && r.state.theNight == s.theNight && r.state.resets == s.resets
        && r.state.pane.store == s.pane.store
        && SummarySlot in r.state.pane.status && r.state.pane.status[SummarySlot].ErrorMsg?
        && (forall k :: k != SummarySlot ==> SameAt(r.state.pane.status, s.pane.status, k))
  {
  }

  /** A request that passes the validation records the night and calls the reset
      hook once when it exists, whatever happens next. It throws exactly when it
      needs the registry's `EON` for the night (not local, no `eon_expid`) and the
      registry is missing, lacks the night or has a null `EON`, or when it is not
      local and the registry never loaded. */
  lemma SetNightAccepted<V>(s: PageState<V>, setup: Setup, req: Request, env: Env<V>)
    requires CheckRequest(req.night, req.eonExpid).Proceed?
    ensures var r := SetNightEffect(s, setup, req, env);
      && r.state.theNight == Some(req.night)
      && r.state.resets == s.resets + (if setup.resetHookSet then 1 else 0)
      && !r.outcome.Rejected?
    ensures var r := SetNightEffect(s, setup, req, env);
      r.outcome.Threw? <==>
        !req.local && (setup.assets.None? || (Nullish(req.eonExpid) && Nullish(EonOf(req.night, setup.assets.value))))
    ensures var r := SetNightEffect(s, setup, req, env);
      r.outcome.Launched? ==>
        r.outcome.sources == ResolveSources(req.night, CheckRequest(req.night, req.eonExpid).expid,
                                            req.local, setup.localRoot, setup.assets).value
  {
  }

  lemma AllAssetsDistinct()
    ensures forall i, j :: 0 <= i < j < |AllAssets| ==> AllAssets[i] != AllAssets[j]
  {
  }

  lemma SourcesSlotIsFree()
    ensures SourcesSlot !in SlotsOf(AllAssets)
  {
    forall a | a in AllAssets
      ensures Slot(a) != SourcesSlot
    {
    }
  }

  /** Once the chains have settled, each has reported how it settled in its own
      element and published under its own key exactly when its decoding succeeded
      and a runtime exists (a summary without `meta` has published and reports a
      failure); a chain that did not publish leaves its key as it was, and so does
      every key that is not one of the six. The sources message stays in its
      element. */
  lemma LaunchPaneEffect<V>(store: map<string, V>, status: map<string, Message>, urls: seq<string>, night: string,
                            runtimeSet: bool, env: Env<V>)
    ensures var q := LaunchPane(store, status, urls, night, runtimeSet, env);
      && (forall a :: a in AllAssets ==>
            Slot(a) in q.status && q.status[Slot(a)] == SlotMessage(a, SettledOf(a, urls, night, env), env.elapsedMs(a)))
      && (forall a :: a in AllAssets && Publishes(ChainOf(a, urls, night, env), runtimeSet) ==>
            Key(a) in q.store && q.store[Key(a)] == ChainOf(a, urls, night, env).value)
      && (forall a :: a in AllAssets && !Publishes(ChainOf(a, urls, night, env), runtimeSet) ==>
            SameAt(q.store, store, Key(a)))
      && (forall k :: k !in KeysOf(AllAssets) ==> SameAt(q.store, store, k))
      && SourcesSlot in q.status && q.status[SourcesSlot] == InfoMsg(SourcesText(night, urls))
      && (forall k :: k !in SlotsOf(AllAssets) && k != SourcesSlot ==> SameAt(q.status, status, k))
  {
    var outcomes, reports := Outcomes(urls, night, env), Reports(urls, night, env);
    var started := Pane(store, status[SourcesSlot := InfoMsg(SourcesText(night, urls))]);
    AllAssetsDistinct();
    ApplyChainsEffect(started, AllAssets, outcomes, runtimeSet, reports);
    SourcesSlotIsFree();
    forall a | a in AllAssets
      ensures outcomes(a) == ChainOf(a, urls, night, env)
      ensures reports(a) == SlotMessage(a, SettledOf(a, urls, night, env), env.elapsedMs(a))
    {
    }
  }

  /** A launched call leaves the chains' state of `LaunchPane` over the sources it reports. */
  lemma SetNightLaunched<V>(s: PageState<V>, setup: Setup, req: Request, env: Env<V>)
    requires SetNightEffect(s, setup, req, env).outcome.Launched?
    ensures var r := SetNightEffect(s, setup, req, env);
      && AdviceStep(s.pane.status, setup, req).Success?
      && r.state.pane == LaunchPane(s.pane.store, AdviceStep(s.pane.status, setup, req).value,
                                    r.outcome.sources, req.night, setup.runtimeSet, env)
  {
  }

  /** `SetNightEffect` at each exit of `setNight`. */
  lemma SetNightSteps<V>(s: PageState<V>, setup: Setup, req: Request, env: Env<V>)
    ensures var gate := CheckRequest(req.night, req.eonExpid);
      var resets := if setup.resetHookSet then s.resets + 1 else s.resets;
      var advised := AdviceStep(s.pane.status, setup, req);
      var expid := if gate.Proceed? then gate.expid else None;
      var sources := ResolveSources(req.night, expid, req.local, setup.localRoot, setup.assets);
      && (gate.Refuse? ==>
            SetNightEffect(s, setup, req, env)
            == Step(PageState(s.theNight, s.resets, Pane(s.pane.store, s.pane.status[SummarySlot := ErrorMsg(gate.message)])), Rejected))
      && (gate.Proceed? && advised.Failure? ==>
            SetNightEffect(s, setup, req, env) == Step(PageState(Some(req.night), resets, s.pane), Threw(advised.error)))
      && (gate.Proceed? && advised.Success? && sources.Failure? ==>
            SetNightEffect(s, setup, req, env)
            == Step(PageState(Some(req.night), resets, Pane(s.pane.store, advised.value)), Threw(sources.error)))
      && (gate.Proceed? && advised.Success? && sources.Success? ==>
            SetNightEffect(s, setup, req, env)
            == Step(PageState(Some(req.night), resets,
                              LaunchPane(s.pane.store, advised.value, sources.value, req.night, setup.runtimeSet, env)),
                    Launched(sources.value)))
  {
    var gate := CheckRequest(req.night, req.eonExpid);
    if gate.Refuse? {
      SetNightRefused(s, setup, req, env);
    } else if AdviceStep(s.pane.status, setup, req).Failure? {
      SetNightAdviceThrows(s, setup, req, env);
    } else if ResolveSources(req.night, gate.expid, req.local, setup.localRoot, setup.assets).Failure? {
      SetNightSourcesThrow(s, setup, req, env);
    } else {
      SetNightLaunches(s, setup, req, env);
    }
  }

  lemma SetNightRefused<V>(s: PageState<V>, setup: Setup, req: Request, env: Env<V>)
    requires CheckRequest(req.night, req.eonExpid).Refuse?
    ensures SetNightEffect(s, setup, req, env)
            == Step(PageState(s.theNight, s.resets,
                              Pane(s.pane.store, s.pane.status[SummarySlot := ErrorMsg(CheckRequest(req.night, req.eonExpid).message)])),
                    Rejected)
  {
  }

  lemma SetNightAdviceThrows<V>(s: PageState<V>, setup: Setup, req: Request, env: Env<V>)
    requires CheckRequest(req.night, req.eonExpid).Proceed? && AdviceStep(s.pane.status, setup, req).Failure?
    ensures SetNightEffect(s, setup, req, env)
            == Step(PageState(Some(req.night), if setup.resetHookSet then s.resets + 1 else s.resets, s.pane),
                    Threw(AdviceStep(s.pane.status, setup, req).error))
  {
  }

  lemma SetNightSourcesThrow<V>(s: PageState<V>, setup: Setup, req: Request, env: Env<V>)
    requires CheckRequest(req.night, req.eonExpid).Proceed? && AdviceStep(s.pane.status, setup, req).Success?
    requires ResolveSources(req.night, CheckRequest(req.night, req.eonExpid).expid, req.local,
                            setup.localRoot, setup.assets).Failure?
    ensures SetNightEffect(s, setup, req, env)
            == Step(PageState(Some(req.night), if setup.resetHookSet then s.resets + 1 else s.resets,
                              Pane(s.pane.store, AdviceStep(s.pane.status, setup, req).value)),
                    Threw(ResolveSources(req.night, CheckRequest(req.night, req.eonExpid).expid, req.local,
                                         setup.localRoot, setup.assets).error))
  {
  }

  lemma SetNightLaunches<V>(s: PageState<V>, setup: Setup, req: Request, env: Env<V>)
    requires CheckRequest(req.night, req.eonExpid).Proceed? && AdviceStep(s.pane.status, setup, req).Success?
    requires ResolveSources(req.night, CheckRequest(req.night, req.eonExpid).expid, req.local,
                            setup.localRoot, setup.assets).Success?
    ensures var urls := ResolveSources(req.night, CheckRequest(req.night, req.eonExpid).expid, req.local,
                                       setup.localRoot, setup.assets).value;
      SetNightEffect(s, setup, req, env)
      == Step(PageState(Some(req.night), if setup.resetHookSet then s.resets + 1 else s.resets,
                        LaunchPane(s.pane.store, AdviceStep(s.pane.status, setup, req).value, urls, req.night,
                                   setup.runtimeSet, env)),
              Launched(urls))
  {
    var gate := CheckRequest(req.night, req.eonExpid);
    var advised := AdviceStep(s.pane.status, setup, req);
    var sources := ResolveSources(req.night, gate.expid, req.local, setup.localRoot, setup.assets);
    assert gate == Proceed(gate.expid);
    assert advised == Success(advised.value);
    assert sources == Success(sources.value);
  }

  /** The chains started so far, extended by the next one in `AllAssets`. */
  lemma LaunchStep<V>(started: Pane<V>, i: nat, urls: seq<string>, night: string, runtimeSet: bool, env: Env<V>)
    requires i < |AllAssets|
    ensures var a := AllAssets[i];
      ApplyChains(started, AllAssets[..i + 1], Outcomes(urls, night, env), runtimeSet, Reports(urls, night, env))
      == ApplyChain(ApplyChains(started, AllAssets[..i], Outcomes(urls, night, env), runtimeSet, Reports(urls, night, env)),
                    a, ChainOf(a, urls, night, env), runtimeSet, SlotMessage(a, SettledOf(a, urls, night, env), env.elapsedMs(a)))
  {
    var outcomes, reports := Outcomes(urls, night, env), Reports(urls, night, env);
    var a := AllAssets[i];
    ApplyChainsSnoc(started, AllAssets, i, outcomes, runtimeSet, reports);
    assert outcomes(a) == ChainOf(a, urls, night, env);
    assert reports(a) == SlotMessage(a, SettledOf(a, urls, night, env), env.elapsedMs(a));
  }

  /** The page: the globals `setNight` updates and the status elements and runtime
      variables it writes, with the fixed setup. */
  class Page<V> {
    var theNight: Option<string>
    var resets: nat
    var store: map<string, V>
    var status: map<string, Message>
    const resetHookSet: bool
    const runtimeSet: bool
    const localRoot: string
    const assets: Option<Nights>

    function State(): PageState<V>
      reads this
    {
      PageState(theNight, resets, Pane(store, status))
    }

    function Config(): Setup {
      Setup(resetHookSet, runtimeSet, localRoot, assets)
    }

    /** A freshly loaded page: no night yet, nothing stored, no status written. */
    constructor(resetHookSet: bool, runtimeSet: bool, localRoot: string, assets: Option<Nights>)
      ensures State() == PageState(None, 0, Pane(map[], map[]))
      ensures Config() == Setup(resetHookSet, runtimeSet, localRoot, assets)
    {
      theNight := None;
      resets := 0;
      store := map[];
      status := map[];
      this.resetHookSet := resetHookSet;
      this.runtimeSet := runtimeSet;
      this.localRoot := localRoot;
      this.assets := assets;
    }

    /** The candidate list `setNight` builds by pushing one source per rule. */
    method CollectSources(night: string, expid: Option<string>, local: bool) returns (r: Result<seq<string>, JsError>)
      ensures r == ResolveSources(night, expid, local, localRoot, assets)
    {
      var nightURLs: seq<string> := [];
      if local {
        nightURLs := nightURLs + [localRoot + night];
        assert nightURLs == [localRoot + night];
      } else if expid.Some? {
        nightURLs := nightURLs + [DataRoot + night + "/" + expid.value];
        assert nightURLs == [DataRoot + night + "/" + expid.value];
      } else {
        nightURLs := nightURLs + [EonRoot + night];
        assert nightURLs == [EonRoot + night];
        if assets.None? {
          return Failure(PropertyOfNullish(JsUndefined, "nights"));
        }
        var eon := EonOf(night, assets.value);
        var checked := ValidExpid(eon);
        if checked.ExpidThrows? {
          return Failure(checked.error);
        }
        var segment := ExpidSegment(eon);
        if segment.Some? {
          nightURLs := nightURLs + [DataRoot + night + "/" + segment.value];
          assert nightURLs == [EonRoot + night, DataRoot + night + "/" + segment.value];
        }
      }
      return Success(nightURLs);
    }

    /** One chain: the fallback search, the status check and decoders, then on
        success `redefine` when a runtime exists and the "Loaded" report, which the
        summary's handler replaces by a failure report when its `meta` is missing;
        on failure, the failure report. */
    method RunChain(a: Asset, urls: seq<string>, night: string, env: Env<V>)
      modifies this
      ensures Pane(store, status)
              == ApplyChain(old(Pane(store, status)), a, ChainOf(a, urls, night, env), runtimeSet,
                            SlotMessage(a, SettledOf(a, urls, night, env), env.elapsedMs(a)))
      ensures theNight == old(theNight) && resets == old(resets)
    {
      var events, fetched := FetchFirstSuccessful(urls, FileName(a, night), env.fetch);
      var result := ChainResult(a, fetched, env.decode);
      assert result == ChainOf(a, urls, night, env);
      var ms := env.elapsedMs(a);
      ghost var report := SlotMessage(a, Settled(a, result, env.meta), ms);
      if result.Success? {
        if runtimeSet {
          store := store[Key(a) := result.value];
        }
        status := status[Slot(a) := SlotMessage(a, result, ms)];
        if a == Summary && Nullish(env.meta(result.value)) {
          var e := PropertyOfNullish(env.meta(result.value), "setup_id");
          status := status[Slot(a) := SlotMessage<V>(a, Failure(e), ms)];
          assert report == SlotMessage<V>(a, Failure(e), ms);
          UpdateOverwrites(old(status), Slot(a), SlotMessage(a, result, ms), report);
        } else {
          assert report == SlotMessage(a, result, ms);
        }
      } else {
        status := status[Slot(a) := SlotMessage(a, result, ms)];
      }
    }

    /** The sources message, then each chain in turn. */
    method LaunchChains(night: string, urls: seq<string>, env: Env<V>)
      modifies this
      ensures Pane(store, status) == LaunchPane(old(store), old(status), urls, night, runtimeSet, env)
      ensures theNight == old(theNight) && resets == old(resets)
    {
      status := status[SourcesSlot := InfoMsg(SourcesText(night, urls))];
      ghost var started := Pane(store, status);
      var i := 0;
      while i < |AllAssets|
        invariant 0 <= i <= |AllAssets|
        invariant theNight == old(theNight) && resets == old(resets)
        invariant Pane(store, status)
                  == ApplyChains(started, AllAssets[..i], Outcomes(urls, night, env), runtimeSet, Reports(urls, night, env))
      {
        ghost var before := Pane(store, status);
        RunChain(AllAssets[i], urls, night, env);
        LaunchStep(started, i, urls, night, runtimeSet, env);
        assert Pane(store, status)
               == ApplyChain(before, AllAssets[i], ChainOf(AllAssets[i], urls, night, env), runtimeSet,
                             SlotMessage(AllAssets[i], SettledOf(AllAssets[i], urls, night, env), env.elapsedMs(AllAssets[i])));
        i := i + 1;
      }
      assert AllAssets[..|AllAssets|] == AllAssets;
    }

    /** `setNight(night, {eon_expid, local})`. */
    method SetNight(night: string, eonExpid: JsValue, local: bool, env: Env<V>) returns (outcome: NightOutcome)
      modifies this
      ensures Step(State(), outcome) == SetNightEffect(old(State()), Config(), Request(night, eonExpid, local), env)
    {
      ghost var before := State();
      var req := Request(night, eonExpid, local);
      SetNightSteps(before, Config(), req, env);
      var gate := CheckRequest(night, eonExpid);
      match gate {
        case Refuse(message) =>
          status := status[SummarySlot := ErrorMsg(message)];
          return Rejected;
        case Proceed(_) =>
      }
      theNight := Some(night);
      if resetHookSet {
        resets := resets + 1;
      }
      var advised := AdviceStep(status, Config(), req);
      if advised.Failure? {
        return Threw(advised.error);
      }
      status := advised.value;
      var sources := CollectSources(night, gate.expid, local);
      if sources.Failure? {
        return Threw(sources.error);
      }
      LaunchChains(night, sources.value, env);
      return Launched(sources.value);
    }
  }
}
