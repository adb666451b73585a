# End-of-night focal-plane dashboard: a verified model of its logic

The dashboard (`endofnight.js`) is a browser page. It shows the end-of-night
focal-plane analysis for one observing night. This project models the logic
underneath it and proves properties of that model:

- **Night and exposure identifiers**: the `nightPattern` test, `validExpid`,
  `dateToNight` and `nightToDate` (module `NightId`). Decimal rendering of
  integers is in `Decimal`. The `+s` coercion of decimal text and the text of a
  number are in `Numbers`, where a number is held exactly as an integer over a
  power of ten. JavaScript values and exceptions are in `Js`.
- **The night registry** (`assets.json`): the calendar classification
  `renderInfo`, and the advice `setNight` writes into the summary element
  (`Registry`).
- **HTTP status classification**: `checkResponseStatus` and its closed table
  of reason phrases (`Http`).
- **The ordered-source fallback** `fetchFirstSuccessful` (`Fetching`).
  - The network is an oracle from a URL to a response or a rejection.
  - The status callback and each fetch are recorded as events.
  - The search is a method with a loop, proved against a function.
- **The six asset chains** that `setNight` starts (`Loading`).
  - Each chain builds its file name and retrieves the file through the fallback.
  - Data files pass the status check; images go through `loadImage`'s blanket rewrap.
  - A successful chain publishes under its own runtime key; every chain reports in its own status element.
  - Decoders are an oracle. The summary's decoder is `parseECSV` followed by
    `d3Array.index` on `LOCATION`. The `meta` of a decoded summary is a parameter.
  - The summary's handler publishes first and reads `meta.setup_id` afterwards.
    A summary without `meta` is therefore published and still reported as a
    failure (`Loading.SummaryWithoutMetaFails`).
- **`setNight` itself**, as the class `Dashboard.Page` (module `Dashboard`).
  - It holds the globals the call updates: `theNight`, the reset-hook count, the published values and the status elements.
  - `SetNight` validates the request, records the night, writes the advice, collects the candidate sources and runs the chains.
  - Everything is proved against the function `SetNightEffect`.
- **`parseECSV`**, the Enhanced CSV reader (Astropy APE 6) for the night summary (`Ecsv`).
  - It splits the text into header comments and body lines and checks the header.
  - It assembles the result; the YAML loader and the table parser are parameters.
  - String operations are in `Text`.
- **`localTime`**, the clock text shown for the setup and park exposures (`Clock`).

Where the code behaves otherwise than its comments, names and messages suggest, the model follows the code:

- A rejected fetch does not move on to the next source. The `catch` block reads `response`, which is out of scope there. The resulting ReferenceError ends the search (`Fetching.FirstSuccessfulStopsAt`, with the instance `Fetching.RejectionStopsSearch`).
- `checkResponseStatus` never fails in the chains. The fallback only returns ok responses (`Loading.DataChainSkipsStatusCheck`).
- Validation is not the only error that escapes `setNight`. A non-local call throws when the registry never loaded. It also throws when no `eon_expid` is given and the registry holds no `EON` for the night (`Dashboard.SetNightAccepted`).
- An image chain's failure report does not carry the underlying message. `loadImage` interpolates the `toString` method instead of calling it (`Loading.ImageFailureHidesCause`).

## Model

| member | source | states |
|---|---|---|
| Decimal.NatToDecimal | endofnight.js:158 | `n.toString()` of a non-negative integer is a non-empty digit string without a superfluous leading zero that denotes n |
| Decimal.IntToString | endofnight.js:203-207 | the text of an integer: its digits, after a minus sign when it is negative, denoting its magnitude, with no leading zero, so it is the one shortest such text |
| Decimal.SmallDecimalIsNatToDecimal | endofnight.js:154-158 | below 100, the digit-by-digit rendering the clock uses is `toString()` / `toFixed(0)` |
| Js.ToJsString | endofnight.js:188 | `toString()` throws exactly for null and undefined and returns a string unchanged; an integer becomes its digits without a leading zero, after a minus sign when it is negative |
| Text.Split | endofnight.js:117 | `split("\n")`: non-empty, pieces free of the separator, and joining them with the separator gives the input back |
| Text.SplitJoin | endofnight.js:117 | splitting the join of separator-free pieces returns the pieces in order |
| Text.Slice | endofnight.js:118 | `slice(k)` is what follows the first k characters, empty past the end |
| Text.TrimStart | endofnight.js:119 | the longest suffix not starting with white space; everything removed is white space |
| Text.Trim | endofnight.js:119 | `trim()`: no longer than the text, and neither starts nor ends with white space |
| Text.TrimIdempotent | endofnight.js:119 | trimming trimmed text changes nothing |
| Text.SurroundingSpaceIgnored | endofnight.js:119 | white space written before and after a text leaves the text's own trim |
| Text.Join | endofnight.js:121-122 | `join(sep)`: the pieces in order with the separator between them; `Text.SplitJoin` is its inverse |
| Text.TrimEnd | endofnight.js:119 | the longest prefix not ending with white space; everything removed is white space |
| Numbers.Normalize | endofnight.js:190 | dropping trailing zeros of the fraction keeps the value and leaves a canonical number |
| Numbers.UnsignedLiteral | endofnight.js:190 | a literal of digits with an optional point is a non-negative canonical number; plain digits give the integer they denote |
| Numbers.ToNumber | endofnight.js:190 | `+s` gives a canonical number or NaN, and a digit string (blank included) gives the integer it denotes |
| Numbers.ToNumberOfTrim | endofnight.js:190 | `+s` depends only on the trimmed text |
| Numbers.ToNumberIgnoresSurroundingSpace | endofnight.js:190 | white space of any kind and length around the text does not change the number |
| Numbers.NumberText | endofnight.js:195-198 | the text of a number from 1 to 10^21 starts and ends with a digit, is all digits exactly for an integer, and then denotes it |
| Numbers.ToNumberOfIntToString | endofnight.js:188-190 | coercing the text of an integer gives the integer |
| Numbers.ToNumberOfText | endofnight.js:190-198 | coercing the text of a number gives the number back |
| Numbers.ToNumberOfPaddedText | endofnight.js:195-197 | zeros in front of the text of a number do not change what it coerces to |
| Text.TrimLeadingSpace | endofnight.js:190 | `trim` removes a space in front of otherwise trimmed text |
| NightId.ZeroPad8 | endofnight.js:195-197 | an integer gets the three, two or one zeros that make it an eight-digit string denoting it; the padded text of a fraction is not all digits |
| NightId.ExpidOfNumber | endofnight.js:190-198 | null exactly for NaN and values outside [10000, 99999999], fractions included; a string only for a value in [10000, 10000000), eight digits exactly when it is an integer, whose value it denotes; at or above 10000000 the number itself |
| NightId.ValidExpid | endofnight.js:187-199 | throws exactly for null/undefined; any eight-digit string comes back unchanged; a string that is not eight digits is returned only for text coercing to a fraction; a number is returned only in [10000000, 99999999] and is what the text coerces to |
| NightId.ValidExpidOfText | endofnight.js:188-190 | text other than eight digits is judged by the number it coerces to |
| NightId.ValidExpidChecked | endofnight.js:185-199 | corrected: throws exactly for null/undefined, every string returned is eight digits, every number an integer in [10000000, 99999999]; null for a fraction, the original's result otherwise |
| NightId.FractionalExpidAccepted | endofnight.js:190-197 | as written, any fraction in [10000, 10000000) given as text comes back as a string that is not eight digits, where the corrected version gives null |
| NightId.FractionalExpidExample | endofnight.js:190-195 | as written, "12345.5" gives "00012345.5"; corrected, null |
| NightId.SpacedExpidAccepted | endofnight.js:190-195 | white space around the text is ignored: " 12345" gives "00012345" |
| NightId.ValidExpidOfInteger | endofnight.js:187-199 | an integer is accepted exactly in [10000, 99999999], as the eight-digit string denoting it; otherwise null |
| NightId.ValidExpidOfDigits | endofnight.js:189-198 | a digit string not eight long is null out of range, padded to the eight digits denoting it below 10000000, and the number itself (not a string) above |
| NightId.ValidExpidIdempotent | endofnight.js:187-199 | every string `validExpid` returns, the padded text of a fraction included, is accepted unchanged by it |
| NightId.PaddedReadsBack | endofnight.js:195-197 | a padded string coerces back to the value it was made from |
| NightId.ExpidSegment | endofnight.js:263-266 | the URL segment exists exactly when `validExpid` returns a string or number, is the returned string itself, and is eight digits unless the input coerces to a fraction |
| NightId.Pad2 | endofnight.js:204-207 | a month or day with a "0" in front when below 10; `NightId.Pad2Value` states what it writes |
| NightId.NightOf | endofnight.js:201-209 | the night text for a date: year, padded month, padded day; `NightId.NightOfFields` and the two round trips state its properties |
| NightId.DateToNight | endofnight.js:201-209 | the night built by successive appends is year, padded month, padded day; for 2000-2099 it matches the night pattern and `nightToDate` reads the date back |
| NightId.AppendField | endofnight.js:204-207 | one `if (n < 10) night += "0"; night += n` step appends the padded field |
| NightId.MatchesNight | endofnight.js:182 | `nightPattern`, /^20[0-9]{6}$/: eight digits starting "20"; `NightId.NightToDate` is defined exactly on it |
| NightId.NightToDate | endofnight.js:210-217 | null exactly for text that does not match `nightPattern` |
| NightId.Pad2Value | endofnight.js:204-207 | a padded field of a number below 100 is two digits denoting the number |
| NightId.Pad2OfField | endofnight.js:215 | padding the value of a two-digit field writes the field back |
| NightId.YearField | endofnight.js:203 | a year in 2000-2099 is four digits starting "20" denoting the year |
| NightId.NightOfFields | endofnight.js:182 | the night of a date in 2000-2099 matches the pattern, and characters [0,4), [4,6), [6,8) denote year, month, day |
| NightId.NightToDateOfNightOf | endofnight.js:201-217 | round trip from the date: `nightToDate(dateToNight(d)) == d` |
| NightId.NightOfNightToDate | endofnight.js:201-217 | round trip from the night: every matching night is `dateToNight` of the date `nightToDate` reads |
| Registry.Classify | endofnight.js:31-35 | "nodata" exactly without exposures, "available" exactly with exposures and a truthy `EON`, "missing" otherwise; disabled exactly when not available |
| Registry.RenderInfo | endofnight.js:29-36 | one entry per registry night, and each is that night's classification |
| Registry.SelectableNights | endofnight.js:29-36 | a night can be picked exactly when it has exposures and a truthy `EON` |
| Registry.EonOf | endofnight.js:273 | undefined for a night the registry lacks |
| Registry.Advice | endofnight.js:242-253 | throws exactly when the registry never loaded; informational exactly for a listed night with a truthy `EON`, reading "<night> has <n> positioning exposures" with n the number of its exposures; the error text otherwise |
| Registry.AdviceAgreesWithCalendar | endofnight.js:29-36 | the advice agrees with the calendar class, except a night without exposures but with an `EON` gets "has 0 positioning exposures" |
| Http.CheckResponseStatus | endofnight.js:59-79 | fails exactly for statuses in [400, 600): tabled reason for the ten codes, "Error s" otherwise; any other response passes unchanged |
| Http.OkResponsePasses | endofnight.js:59-79 | an ok response always passes |
| Fetching.FetchFirstSuccessful | endofnight.js:81-96 | the loop's events and result are those of the search function `FirstSuccessful` |
| Fetching.TraceShape | endofnight.js:82-88 | each candidate contributes its callback immediately before its fetch, candidates in list order |
| Fetching.FirstSuccessful | endofnight.js:81-96 | the search as a function; it fails only with "None of the URLs were successful." or the ReferenceError |
| Fetching.FirstSuccessfulStopsAt | endofnight.js:82-93 | the search stops at the first candidate that does not fall through: its ok response, or the catch block's ReferenceError after a rejection |
| Fetching.FirstSuccessfulExhausted | endofnight.js:82-95 | when every candidate falls through (also none), all are tried and it throws "None of the URLs were successful." |
| Fetching.RejectionStopsSearch | endofnight.js:87-93 | an instance of `FirstSuccessfulStopsAt`: a rejected fetch ends the search before a later candidate that would answer ok |
| Fetching.FirstSuccessfulIsOk | endofnight.js:89 | every returned response is ok and comes from one of the candidates with the name appended |
| Loading.KeysAndSlotsDistinct | endofnight.js:291-394 | different chains use different runtime keys and status elements |
| Loading.FileNameInjective | endofnight.js:294-386 | an asset file name determines the asset and the night |
| Loading.ChainResult | endofnight.js:98-386 | the part of a chain after the search, for `loadImage` (98-111) and for the data chains (293-300, 311-318, 336-339, 355-359): an image failure is always the `loadImage` rewrap; a data chain keeps the search's exception; after an ok response the chain succeeds exactly when decoding does, with the decoded value |
| Loading.ChainOf | endofnight.js:291-394 | a whole chain: the search over the candidates for the asset's file name, then `Loading.ChainResult`; `Loading.DataChainSkipsStatusCheck` states it for the data chains |
| Loading.DataChainSkipsStatusCheck | endofnight.js:293-300 | a data chain is the search's exception or exactly the decoders' verdict on the first ok response |
| Loading.Settled | endofnight.js:336-351 | a failure settles as it is; a success settles as it is except a summary with a nullish `meta`, which settles to the TypeError of reading `setup_id` |
| Loading.SummaryWithoutMetaFails | endofnight.js:340-351 | a summary without `meta` is published under `theSummary` and its element reports "Failed to load summary: TypeError: Cannot read properties of undefined (reading 'setup_id')" |
| Loading.SlotMessage | endofnight.js:300-392 | a chain's report is informational exactly when the chain succeeded; a failure report starts with that asset's "Failed to load …: " prefix |
| Loading.ImageFailureHidesCause | endofnight.js:107-110 | any two image failures leave the same report |
| Loading.ChainsCommute | endofnight.js:396 | two different chains settle to the same state in either order |
| Loading.ApplyChain | endofnight.js:300-307 | one chain settling: its value under its key when it publishes, its report in its element; `Loading.ApplyChainFrame` states its frame |
| Loading.ApplyChainFrame | endofnight.js:300-307 | one chain writes its report in its element, its value under its key only when it publishes, and nothing else |
| Loading.ApplyChains | endofnight.js:291-394 | the chains settling one after another in list order; `Loading.ApplyChainsEffect` states the result |
| Loading.ApplyChainsEffect | endofnight.js:291-394 | after distinct chains settle: each element holds its chain's report, each key its chain's value exactly when it published, and all else is untouched |
| Ecsv.CommentLines | endofnight.js:118 | the stripped comment lines are no more than the lines |
| Ecsv.BodyLines | endofnight.js:122 | the body lines are no more than the lines and all are body lines |
| Ecsv.BodyLinesExact | endofnight.js:122 | a line is in the body exactly when it is an input line whose first character is not '#' |
| Ecsv.DroppedLines | endofnight.js:118-122 | the lines reaching neither part start with '#' but not "# " |
| Ecsv.Delimiter | endofnight.js:128 | the header's `delimiter` when present and not nullish, a space otherwise; never nullish |
| Ecsv.Assemble | endofnight.js:130 | the result's keys are the header's plus `version` and `data`, with header fields winning |
| Ecsv.FiltersDistribute | endofnight.js:118-122 | the filters keep line order: filtering a concatenation concatenates the parts |
| Ecsv.LinesPartitioned | endofnight.js:118-122 | every line goes to exactly one of header, body or nowhere |
| Ecsv.OneLine | endofnight.js:118-122 | a single line goes where its first two characters say |
| Ecsv.EcsvBodyLines | endofnight.js:122 | splitting the body text gives back exactly the body lines in order |
| Ecsv.ParseEcsvRejections | endofnight.js:119-127 | "Missing %ECSV header" when the first comment does not start `%ECSV`; "Header is missing required datatype" when the header is not a mapping or its `datatype` is falsy |
| Ecsv.ParseEcsvSuccess | endofnight.js:113-132 | a success has a `%ECSV` first comment, a mapping header with truthy `datatype`, the table parsed from the body text with the header delimiter, and the assembled fields |
| Ecsv.ParseEcsvOutcomes | endofnight.js:119-131 | past the `%ECSV` check, a YAML loader exception is the reader's failure; with a truthy `datatype`, a table parser exception is too, and a parsed table gives exactly the assembled object |
| Ecsv.ParseFromHeaderLine | endofnight.js:119-131 | the reader after the first comment: "Missing %ECSV header" unless that comment starts `%ECSV`; a success has `version` and `data` |
| Ecsv.ParseEcsv | endofnight.js:113-132 | `parseECSV` as written, with the TypeError for text without a "# " line; its outcomes are stated by `Ecsv.ParseEcsvRejections`, `Ecsv.ParseEcsvOutcomes` and `Ecsv.ParseEcsvSuccess` |
| Ecsv.ParseEcsvChecked | endofnight.js:113-132 | the corrected reader; `Ecsv.ParseEcsvCheckedHeader` states how it differs |
| Ecsv.NoCommentLineIsTypeError | endofnight.js:119 | text with no "# " line throws a TypeError as written, where the corrected reader gives the `%ECSV` rejection |
| Ecsv.ParseEcsvCheckedHeader | endofnight.js:119 | the corrected reader rejects every text without a `%ECSV` first comment and agrees with the original whenever a comment exists |
| Clock.UtcHours | endofnight.js:158 | `getUTCHours()`: the whole hours since the epoch modulo 24, as ECMAScript defines it, so below 24 |
| Clock.UtcMinutes | endofnight.js:159 | `getUTCMinutes()`: the whole minutes since the epoch modulo 60, so below 60 |
| Clock.UtcSeconds | endofnight.js:160 | `getUTCSeconds()`: the whole seconds since the epoch modulo 60, so below 60 |
| Clock.NestedFloor | endofnight.js:158-160 | reading a field from the remainder within the larger unit agrees with ECMAScript's field definition |
| Clock.ZPad | endofnight.js:153-157 | `zpad` writes two characters, with a leading "0" exactly for a number below 10 |
| Clock.ZPadValue | endofnight.js:153-157 | `zpad` of a number below 100 is two digits denoting it |
| Clock.ClockTextOf | endofnight.js:158-161 | the clock text is a one- or two-digit field without a leading zero, a colon, two digits, a colon, two digits and " local", denoting the three fields |
| Clock.LocalTime | endofnight.js:151-162 | `localTime` as written: "NaN:NaN:NaN local" exactly when the text does not parse or the instant or the shifted instant is not a valid Date |
| Clock.LocalTimeIntended | endofnight.js:151-162 | the corrected `localTime`, with the same invalid-Date text exactly in the same cases |
| Clock.LocalTimeIs | endofnight.js:151-162 | for a valid instant, the as-written text prints the shifted hour, the hour again, then the seconds |
| Clock.LocalTimeIntendedIs | endofnight.js:151-162 | for a valid instant, the corrected text prints hour, minutes, seconds |
| Clock.LocalTimeFields | endofnight.js:151-162 | as written, the text reads back as the hour seven hours earlier, that hour again, and the seconds |
| Clock.LocalTimeIntendedFields | endofnight.js:151-162 | corrected, the text reads back as hour, minutes and seconds of the shifted instant |
| Clock.MinutesAreLost | endofnight.js:159 | as written, one minute later reads the same "0:00:00 local"; corrected, it reads "0:01:00 local" |
| Dashboard.CheckRequest | endofnight.js:224-235 | proceeds exactly for a matching night whose `eon_expid`, if given, passes `validExpid`; the summary error text for each refusal; the segment it proceeds with is `validExpid`'s result as text, eight digits unless `eon_expid` coerces to a fraction |
| Dashboard.ResolveSources | endofnight.js:256-282 | local gives exactly the local root; a given exposure gives exactly its data directory; otherwise the EON area, then the registry exposure's data directory exactly when it is valid; throws exactly when the registry or its `EON` is missing |
| Dashboard.AdviceStep | endofnight.js:242-253 | the summary update of a call: throws exactly when it is not local and the registry never loaded; local leaves the elements as they are; otherwise only the summary element changes, informational exactly for a truthy `EON` |
| Dashboard.SetNightEffect | endofnight.js:221-285 | `setNight` as a function of the state before the call; `Dashboard.SetNightRejects`, `Dashboard.SetNightAccepted` and `Dashboard.SetNightLaunched` state its properties |
| Dashboard.SetNightRejects | endofnight.js:224-235 | refused exactly for a bad night or rejected `eon_expid`, leaving `theNight`, the reset hook and the store untouched and an error in the summary only |
| Dashboard.SetNightAccepted | endofnight.js:236-282 | an accepted request records the night and calls the reset hook once; it throws exactly when it needs a registry `EON` that is missing |
| Dashboard.SourcesSlotIsFree | endofnight.js:285 | the sources element is none of the chains' elements |
| Dashboard.LaunchPaneEffect | endofnight.js:283-394 | once the chains settle, each element holds the report of how its chain settled (the TypeError for a summary without `meta`), each key its value exactly when decoding succeeded and a runtime exists, sources message kept; every other key and element untouched |
| Dashboard.LaunchPane | endofnight.js:283-394 | the sources message, then the six chains settling in start order; `Dashboard.LaunchPaneEffect` states the result |
| Dashboard.SetNightLaunched | endofnight.js:254-394 | a launched call ends in the chains' state over the sources it reports |
| Dashboard.Page.constructor | endofnight.js:180 | a fresh page: no night, nothing stored, no status |
| Dashboard.Page.CollectSources | endofnight.js:256-282 | the sources pushed branch by branch are `ResolveSources` |
| Dashboard.Page.RunChain | endofnight.js:291-351 | one chain publishes on success and writes "Loaded", which the summary's handler overwrites with the TypeError report when `meta` is missing; together, `ApplyChain` with the decoded outcome and the settled report |
| Dashboard.Page.LaunchChains | endofnight.js:283-394 | the sources message then the six chains in order leave `LaunchPane`; night and reset count unchanged |
| Dashboard.Page.SetNight | endofnight.js:221-285 | the new state and outcome are `SetNightEffect` of the old state |

## Left out

- The DOM helpers `errorMsg`, `warnMsg`, `infoMsg` and `createSpan` (endofnight.js:135-149) are left out. A status element is a map entry holding an info or error message.
- The transient "Loading … from <url>" warnings written by the callbacks are left out, because the final report overwrites each one. The callback calls themselves are kept as events.
- The title and `dataURL` writes (endofnight.js:238-241) are page chrome.
- The setup, park, index and snapshot metadata messages (endofnight.js:329-347) are left out. Only the exception raised by reading `meta.setup_id` when `meta` is missing is modelled. The `localTime` they use is modelled.
- `importJSON` and `importCSS` (endofnight.js:5-14) are network I/O. The registry is a parameter that is None when loading failed.
- The decoders are library code and are modelled as an oracle from an asset and a response to a value or an exception. They are `decompressSync`, `strFromU8`, `csvParse`/`dsvFormat`/`autoType`, `d3Array.group`/`index`, blobs and object URLs.
- The YAML loader and the table parser in `parseECSV` are library code and are parameters.
- AirDatepicker configuration and `main`'s default-night choice (endofnight.js:405-460) are widget and start-up code.
- The Observable runtime wiring (endofnight.js:464-497) is an external runtime. Whether a runtime and a reset hook exist are constants of `Dashboard.Page`.
- JavaScript `Date` parsing and normalisation are left out. `localTime` takes integer milliseconds, with None for text that does not parse. `nightToDate` returns the fields that `new Date(...)` receives.
- Promise concurrency (endofnight.js:396-402) is modelled sequentially. The chains run one after another in start order, and `Loading.ChainsCommute` shows that any two chains commute.
- `Date.now` timings (endofnight.js:286-290) are an oracle giving each chain's elapsed milliseconds.
- Numbers.ToNumber: numbers are exact decimals, so binary rounding (past about 15 significant digits) is not modelled. Exponent notation, `0x`/`0o`/`0b` prefixes and `Infinity` are NaN here. For `validExpid` this changes the verdict for exponent and prefix forms ("1e4" gives null here and "00010000" in JavaScript), and for decimal text whose nearest double lies on the other side of 10000 or 99999999 ("9999.9999999999999999" gives null here and "00010000" in JavaScript; "99999999.000000001" gives null here and the number 99999999 in JavaScript).
- Numbers.NumberText: only numbers from 1 to 10^21 are rendered, where JavaScript does not use exponent notation. `validExpid` renders only numbers from 10000 to 99999999.
- Decimal.NatToDecimal: integers are exact and unbounded here. JavaScript writes a number of 10^21 or more in exponent notation ("1e+21") and holds no integer beyond 2^53 exactly, so its digits differ there. The model's call sites are years, months, days, status codes, counts and milliseconds, all far below both bounds.
- Decimal.IntToString: the same bounds as `NatToDecimal`: plain exact digits for every integer, where JavaScript uses exponent notation from 10^21 and rounds beyond 2^53.
- Js.ToJsString: a `JsInt` is any integer and becomes its exact digits. A JavaScript number of 10^21 or more prints in exponent notation, and a registry `EON` beyond 2^53 (say 9007199254740993) reads back rounded ("9007199254740992"). `validExpid` gives null for such an `EON` either way, since it is not eight digits and lies above 99999999.
- Ecsv.ParseEcsvSuccess: the version is kept as the text handed to `Number`. Its numeric conversion is not modelled.

## Findings

| source | as written | input that shows it | evidently intended | confidence | as-written member | corrected member |
|---|---|---|---|---|---|---|
| endofnight.js:159 | the middle field is `zpad(local.getUTCHours())`, so the hour is printed twice and the minutes never appear | the instants 7 h and 7 h 1 min after the epoch both give "0:00:00 local" | `zpad(local.getUTCMinutes())`, giving "0:01:00 local" for the second | not executed | Clock.MinutesAreLost | Clock.LocalTimeIntendedFields |
| endofnight.js:119 | `comments[0].trim()` is called with no "# " line present, so it throws a TypeError | the text "1 2" | reject with "Missing %ECSV header" like any other text without the header | not executed | Ecsv.NoCommentLineIsTypeError | Ecsv.ParseEcsvCheckedHeader |
| endofnight.js:190-197 | after `expid = +expid` only the range is checked, so a value with a fraction is padded and returned | the text "12345.5" gives "00012345.5" | reject a value that is not an integer like one out of range, so every string returned has eight digits as the comment at :185-186 says | not executed | NightId.FractionalExpidExample | NightId.ValidExpidChecked |
