/** The night registry read from `assets.json` and the two views of it the page
    derives: the calendar classification `renderInfo` and the one-line advice
    `setNight` writes into the summary element. */
module Registry {

  import opened Results
  import opened Decimal
  import opened Js
  import opened Status

  /** One entry of `assets.nights`: its positioning exposures and its `EON` field. */
  datatype NightInfo = NightInfo(expids: seq<JsValue>, eon: JsValue)

  /** `assets.nights`, keyed by night. */
  type Nights = map<string, NightInfo>

  /** The calendar cell options `renderInfo` holds for a night. */
  datatype CellInfo = CellInfo(disabled: bool, classes: string)

  const NoData: string := "nodata"
  const Available: string := "available"
  const Missing: string := "missing"

  /** The classification of one night: no exposures, or exposures with or
      without an end-of-night analysis. Only an available night can be picked. */
  function Classify(info: NightInfo): (c: CellInfo)
    ensures c.classes == NoData <==> |info.expids| == 0
    ensures c.classes == Available <==> |info.expids| > 0 && Truthy(info.eon)
    ensures c.classes == Missing <==> |info.expids| > 0 && !Truthy(info.eon)
    ensures c.disabled <==> c.classes != Available
  {
    var classes := if |info.expids| == 0 then NoData else if Truthy(info.eon) then Available else Missing;
    CellInfo(classes != Available, classes)
  }

  /** `renderInfo`: the classification of every night in the registry. */
  function RenderInfo(nights: Nights): (info: map<string, CellInfo>)
    ensures info.Keys == nights.Keys
    ensures forall night :: night in nights ==> info[night] == Classify(nights[night])
  {
    map night | night in nights :: Classify(nights[night])
  }

  /** The nights the calendar lets a user pick are exactly those with at least one
      exposure and a truthy `EON`. */
  lemma SelectableNights(nights: Nights, night: string)
    ensures (night in RenderInfo(nights) && !RenderInfo(nights)[night].disabled)
            <==> (night in nights && |nights[night].expids| > 0 && Truthy(nights[night].eon))
  {
    if night in nights {
      var c := Classify(nights[night]);
      assert RenderInfo(nights)[night] == c;
    }
  }

  /** `assets.nights?.[night]?.EON`: undefined for a night the registry lacks. */
  function EonOf(night: string, nights: Nights): (eon: JsValue)
    ensures night !in nights ==> eon == JsUndefined
  {
    if night in nights then nights[night].eon else JsUndefined
  }

  /** The informational advice for a night with `count` positioning exposures. */
  function ExposuresText(night: string, count: nat): string {
    night + " has " + IntToString(count) + " positioning exposures"
  }

  /** What `setNight` writes into the summary element when it is not reading local
      files: an error when the night is missing from the registry or has a falsy
      `EON`, otherwise the number of its positioning exposures. Reading
      `assets.nights` throws when the registry never loaded (None). */
  function Advice(night: string, assets: Option<Nights>): (r: Result<Message, JsError>)
    ensures r.Failure? <==> assets.None?
    ensures r.Failure? ==> r.error == PropertyOfNullish(JsUndefined, "nights")
    ensures r.Success? && r.value.InfoMsg? <==> assets.Some? && Truthy(EonOf(night, assets.value))
    ensures r.Success? && r.value.ErrorMsg? ==> r.value.text == night + " is not listed in the assets"
    ensures r.Success? && r.value.InfoMsg? ==>
              night in assets.value && r.value.text == ExposuresText(night, |assets.value[night].expids|)
  {
    match assets
    case None => Failure(PropertyOfNullish(JsUndefined, "nights"))
    case Some(nights) =>
      if night !in nights || !Truthy(nights[night].eon) then
        Success(ErrorMsg(night + " is not listed in the assets"))
      else
        Success(InfoMsg(ExposuresText(night, |nights[night].expids|)))
  }

  /** The advice agrees with the calendar for every night the calendar offers or
      marks missing, and reports an unlisted night as an error. A night without
      exposures but with a truthy `EON` is disabled in the calendar yet, once
      reached through the query string, gets the informational advice "has 0
      positioning exposures". */
  lemma AdviceAgreesWithCalendar(night: string, nights: Nights)
    ensures night !in nights ==> Advice(night, Some(nights)).value.ErrorMsg?
    ensures night in nights && RenderInfo(nights)[night].classes == Available ==>
              Advice(night, Some(nights)).value.InfoMsg?
    ensures night in nights && RenderInfo(nights)[night].classes == Missing ==>
              Advice(night, Some(nights)).value.ErrorMsg?
    ensures night in nights && RenderInfo(nights)[night].classes == NoData && Truthy(nights[night].eon) ==>
              Advice(night, Some(nights)) == Success(InfoMsg(ExposuresText(night, 0)))
  {
    if night in nights {
      var c := Classify(nights[night]);
      assert RenderInfo(nights)[night] == c;
      if c.classes == NoData && Truthy(nights[night].eon) {
        assert |nights[night].expids| == 0;
      }
    }
  }
}
