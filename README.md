# ChatLab chat-export import, page anchors and rank styles, in Dafny

This project models three parts of ChatLab:

- **The chat-export import pipeline.** The ChatLab JSON format has a detector and a parser. The detector recognises an export by its file name and its top-level shape. The parser maps the export onto the normalized result: conversation metadata, a member list and a message list. The dispatcher walks the ordered parser registry (ChatLab JSON, then QQ JSON, then QQ text). It hands the file to the first format whose detector accepts it, and it fails naming the file when none does. It also has a detect-only variant, a list of the supported formats, and the file name taken from a path.
- **Page anchor navigation.** This is the rule that picks the active section of a page from the positions of its anchors. It comes with the scroll lock: a click on an anchor activates it at once, and scroll events cannot override it until the lock's timer fires.
- **Rank styles.** These are the badge class for a leaderboard rank and the bar gradient, which cycles through eight colours.

Modules and files:

| file | module | models |
|---|---|---|
| `wrappers.dfy` | `Wrappers` | `Option`, `Result` |
| `js_values.dfy` | `JsValues` | JSON values and the JavaScript operations the parsers use on them: truthiness, property reads (a read on `undefined`/`null` throws), `Array.isArray`, `typeof … === 'string'`, and `||` |
| `chat_model.dfy` | `ChatModel` | the normalized result, the import errors, the parser record |
| `chatlab_json_parser.dfy` | `ChatlabJsonParser` | `electron/main/parser/chatlabJsonParser.ts` |
| `parser_registry.dfy` | `ParserRegistry` | `electron/main/parser/index.ts` |
| `import_scenarios.dfy` | `ImportScenarios` | two imports worked through end to end |
| `page_anchors.dfy` | `PageAnchors` | `src/composables/usePageAnchors.ts` |
| `rank_style.dfy` | `RankStyle` | `src/utils/rankStyle.ts` |

How the modelled code appears in the model:

- **`JSON.parse`.** It is the parameter `jsonParse: string -> Option<Json>`, where `None` means the call threw. Every property is proved for all such functions.
- **Normalized fields.** The parser copies the fields of members, messages and `meta.name` without checking them. In the model these fields are JavaScript values (`Val`: `undefined` or a JSON value), not strings.
- **The two QQ parsers.** They are `ChatParser` records (name, platform, detect, parse) that the registry receives as arguments.
- **`parseFile`.** It receives the file content instead of reading it.
- **`detectFormat`.** It receives `None` when the read fails. Its `catch` then returns `null`.
- **The page.** It is the map `dom` from the id of each existing element to its rounded top.
- **The timers.** `setTimeout` schedules a timer, and `pendingTimers` counts the timers that have not fired yet. `LockTimerFires` is the event of one of them firing.

Where the code and the format's documented contract differ, the model follows the code:

- **`detect`'s return value.** `detect` returns the value of its `&&` chain, which is not always a boolean. The dispatcher only tests it for truthiness, so the model uses a `bool`.
- **`members` is not a required key.** `parse` checks `chatlab`, `meta` and `messages` but not `members`. A missing `members` array is not reported as "invalid format". It fails later with a runtime TypeError at `.map`. A `null` element of either array fails the same way (`MissingMembersFailsAtMap`, `ParseErrors`).
- **No tag validation.** `meta.platform` and `meta.type` fall back to `UNKNOWN` and `GROUP` only when they are falsy. A truthy value passes through unchecked, even if it is not one of the enum's values.
- **Index mismatch in the selection rule.** The rule computes its index over the positions of the elements found on the page. It then applies that index to the configured anchors. When an anchor's element is missing, the active anchor can be the wrong one, or one that is not on the page (`MissingElementShiftsChoice`). When every element exists, the two coincide (`ChosenAnchorWhenAllPresent`).

## Model

| member | source | states |
|---|---|---|
| `ChatlabJsonParser.Parser` | electron/main/parser/chatlabJsonParser.ts:19-21 | the registered descriptor is named "ChatLab JSON" with platform "chatlab", and its detect/parse pair are the format's `Detect` and `Parse` |
| `ChatlabJsonParser.Detect` | electron/main/parser/chatlabJsonParser.ts:23-42 | `detect` as a total function: the suffix test, then the shape probe with any thrown error read as false; characterized by `DetectExactly` |
| `ChatlabJsonParser.DetectExactly` | electron/main/parser/chatlabJsonParser.ts:23-42 | `detect` accepts exactly when the lower-cased file name ends in `.json`, the content parses, and the value has a truthy `chatlab` whose `version` is a string, a truthy `meta`, and `members` and `messages` arrays |
| `ChatlabJsonParser.ChatlabSuffixIsJsonSuffix` | electron/main/parser/chatlabJsonParser.ts:25 | a name ending in `.chatlab.json` also ends in `.json`, so the second suffix test adds nothing |
| `ChatlabJsonParser.DetectNeedsJsonSuffix` | electron/main/parser/chatlabJsonParser.ts:25-27 | a file name not ending in `.json` (ignoring case) is rejected whatever the content |
| `ChatlabJsonParser.DetectRejectsUnparsable` | electron/main/parser/chatlabJsonParser.ts:29-41 | content that `JSON.parse` rejects makes `detect` return false and not throw |
| `ChatlabJsonParser.Parse` | electron/main/parser/chatlabJsonParser.ts:44-83 | `parse`: the JSON error when `JSON.parse` fails, otherwise `Convert`; its failures are given by `ParseErrors` and its result by `ParseNormalizes` |
| `ChatlabJsonParser.Convert` | electron/main/parser/chatlabJsonParser.ts:52-82 | the key check, the metadata with its defaults, then the two maps, in source order; characterized by `ParseErrors` and `ParseNormalizes` |
| `ChatlabJsonParser.MapMembers` | electron/main/parser/chatlabJsonParser.ts:64-67 | mapping the members succeeds exactly when no element is `null`, otherwise it throws a TypeError; on success it gives one member per source element, in order, with `platformId` and `name` copied |
| `ChatlabJsonParser.MapMessages` | electron/main/parser/chatlabJsonParser.ts:70-76 | mapping the messages succeeds exactly when no element is `null`, otherwise it throws a TypeError; on success it gives one message per source element, in order, with `sender`→`senderPlatformId`, `name`→`senderName`, and `timestamp`, `type`, `content` copied |
| `ChatlabJsonParser.ParseErrors` | electron/main/parser/chatlabJsonParser.ts:44-76 | `parse` fails with the JSON error exactly when `JSON.parse` fails, and with "invalid format" exactly when the value is not `null` and `chatlab` or `meta` is falsy or `messages` is not an array; every other failure is a runtime TypeError; it succeeds exactly when in addition `members` is an array and neither array holds `null` |
| `ChatlabJsonParser.ParseNormalizes` | electron/main/parser/chatlabJsonParser.ts:56-82 | a successful parse copies `meta.name`; `meta.platform` and `meta.type` are the source values when those are truthy, and `UNKNOWN` and `GROUP` when they are not; and maps members and messages one to one in source order with their fields copied |
| `ChatlabJsonParser.DetectedPassesParseChecks` | electron/main/parser/chatlabJsonParser.ts:23-54 | content `detect` accepts never fails `parse` with a JSON error or "invalid format", and it converts when neither array holds `null` |
| `ChatlabJsonParser.MissingMembersFailsAtMap` | electron/main/parser/chatlabJsonParser.ts:52-64 | content that passes the key check without a `members` array fails with a TypeError at `.map`, and `detect` rejects it |
| `ParserRegistry.Parsers` | electron/main/parser/index.ts:14-18 | the registry has three entries: the ChatLab JSON parser first, then QQ JSON, then QQ text |
| `ParserRegistry.SplitPath` | electron/main/parser/index.ts:28 | splitting on `/` and `\` gives one piece more than there are separators, no piece contains a separator, and joining the pieces with the path's separators gives back the path, which fixes the pieces |
| `ParserRegistry.FileName` | electron/main/parser/index.ts:28 | the last piece of the split, which `\|\| ''` leaves unchanged; characterized by `FileNameIsLastSegment` |
| `ParserRegistry.FileNameIsLastSegment` | electron/main/parser/index.ts:28 | the file name is separator-free and is the tail of the path that starts right after its last separator, or the whole path when it has none |
| `ParserRegistry.FileNameAfterTrailingSeparator` | electron/main/parser/index.ts:28 | a path ending in a separator has the file name `''` |
| `ParserRegistry.FirstDetecting` | electron/main/parser/index.ts:31-36 | the search gives the first index whose detector accepts, with every earlier detector rejecting, or none exactly when every detector rejects |
| `ParserRegistry.Dispatch` | electron/main/parser/index.ts:31-38 | what `parseFile` returns for a content and file name: the first accepting parser's result, or the unrecognized-format error; characterized by `DispatchUsesFirstMatch`, `DispatchOnlyParsesAccepted` and `UnrecognizedNamesFile` |
| `ParserRegistry.ParseFile` | electron/main/parser/index.ts:25-39 | the loop returns the parse result of the first accepting parser, or the unrecognized-format error for the file name; it is proved against `Dispatch` |
| `ParserRegistry.DetectedName` | electron/main/parser/index.ts:46-61 | what `detectFormat` returns; characterized by `DetectFormatAgreesWithParseFile` and `DetectFormatOnReadFailure` |
| `ParserRegistry.DetectFormat` | electron/main/parser/index.ts:46-61 | the loop returns the name of the first accepting parser, or `None` when the read failed or nothing accepts |
| `ParserRegistry.SupportedFormats` | electron/main/parser/index.ts:66-71 | one `{name, platform}` per registered parser, in registry order |
| `ParserRegistry.DispatchUsesFirstMatch` | electron/main/parser/index.ts:31-36 | when parser `k` accepts and all before it reject, the import returns exactly parser `k`'s parse result, error included; later parsers play no part |
| `ParserRegistry.DispatchOnlyParsesAccepted` | electron/main/parser/index.ts:31-38 | a result other than the unrecognized-format error is the parse result of a parser whose detector accepted the file |
| `ParserRegistry.UnrecognizedNamesFile` | electron/main/parser/index.ts:38 | when no detector accepts, the import fails with the unrecognized-format error, and its message ends with the file name |
| `ParserRegistry.EarlierRegistrationWins` | electron/main/parser/index.ts:31-36 | when two formats both accept a file, the one registered first parses it, in either order of registration |
| `ParserRegistry.DetectFormatAgreesWithParseFile` | electron/main/parser/index.ts:46-61 | `detectFormat` returns `None` exactly when no detector accepts, and otherwise names the same parser whose result `parseFile` returns |
| `ParserRegistry.DetectFormatOnReadFailure` | electron/main/parser/index.ts:56-60 | a failed read makes `detectFormat` return `None` |
| `ParserRegistry.DetectedNameIsSupported` | electron/main/parser/index.ts:66-71 | every name `detectFormat` returns is among the supported formats |
| `ParserRegistry.SupportedFormatsOfRegistry` | electron/main/parser/index.ts:66-71 | the supported formats list ChatLab JSON (platform "chatlab") first, then the two QQ formats |
| `ParserRegistry.ChatlabHasPriority` | electron/main/parser/index.ts:14-18 | a file the ChatLab detector accepts is parsed by the ChatLab parser, whatever the QQ detectors say |
| `ParserRegistry.FallsThroughInOrder` | electron/main/parser/index.ts:14-38 | a file ChatLab rejects goes to QQ JSON if that accepts, to QQ text only if both JSON formats reject, and is unrecognized if all three reject |
| `ImportScenarios.TeamExportParses` | electron/main/parser/chatlabJsonParser.ts:44-82 | the sample team export parses to meta name "Team" with the default platform and type, member `u1`/Alice and message `hi` |
| `ImportScenarios.TeamExportImports` | electron/main/parser/index.ts:31-36 | `export.json` holding the sample team export is detected as ChatLab JSON and imported as above |
| `ImportScenarios.ForeignJsonIsUnrecognized` | electron/main/parser/index.ts:31-38 | `{"foo":"bar"}` in `export.json` is rejected by ChatLab; with both QQ formats rejecting, the import fails naming `export.json` |
| `PageAnchors.InitialAnchor` | src/composables/usePageAnchors.ts:27 | `anchors[0]?.id \|\| ''`; the constructor's contract sets `activeAnchor` to it |
| `PageAnchors.PositionsOf` | src/composables/usePageAnchors.ts:42-49 | the positions of the anchors whose element exists, in anchor order; characterized by `PositionsOfShape` and `PositionsComplete` |
| `PageAnchors.PositionsOfShape` | src/composables/usePageAnchors.ts:42-49 | every recorded position is that of an existing element and carries its top; with every element present there is one position per anchor, in anchor order |
| `PageAnchors.PositionsComplete` | src/composables/usePageAnchors.ts:42-49 | every anchor whose element exists has its position recorded, whichever other elements are missing |
| `PageAnchors.CollectPositions` | src/composables/usePageAnchors.ts:42-49 | the `forEach`/`push` loop records exactly the positions of the anchors whose element exists, in order |
| `PageAnchors.FirstBelowLine` | src/composables/usePageAnchors.ts:52-59 | the index found is the first position whose top lies below the threshold, with all earlier ones at or above it, or the length when there is none |
| `PageAnchors.ActiveIndex` | src/composables/usePageAnchors.ts:52-59 | the selection rule on the recorded positions; characterized case by case by `ActiveIndexRule` |
| `PageAnchors.ActiveIndexRule` | src/composables/usePageAnchors.ts:52-59 | no positions give 0; none below the line gives the last index; a first one below the line at `i` gives `max(0, i-1)`; the index never exceeds `max(0, n-1)` |
| `PageAnchors.SelectActiveIndex` | src/composables/usePageAnchors.ts:52-59 | the `for` loop with `break` computes the index the selection rule prescribes |
| `PageAnchors.ChosenAnchor` | src/composables/usePageAnchors.ts:42-61 | the anchor `updateActiveAnchor` activates: the rule's index applied to the anchors, `''` when out of range; characterized by `ChosenAnchorIsConfigured`, `ChosenAnchorWhenAllPresent` and `MissingElementShiftsChoice` |
| `PageAnchors.ChosenAnchorIsConfigured` | src/composables/usePageAnchors.ts:61 | the activated id is one of the configured anchors' ids, or `''` when there are none |
| `PageAnchors.ChosenAnchorWhenAllPresent` | src/composables/usePageAnchors.ts:42-61 | with every element present, indexing the anchors names the same section as indexing the positions |
| `PageAnchors.MissingElementShiftsChoice` | src/composables/usePageAnchors.ts:42-61 | with the first element missing, the rule can activate the anchor whose element is missing instead of the section in view |
| `PageAnchors.AnchorNavigator.constructor` | src/composables/usePageAnchors.ts:13-29 | the threshold defaults to 300 and the lock duration to 800; the active anchor starts as the first anchor's id or `''`; the lock starts released |
| `PageAnchors.AnchorNavigator.UpdateActiveAnchor` | src/composables/usePageAnchors.ts:38-62 | while the lock is held nothing changes; otherwise the active anchor becomes the one the selection rule picks, and the lock is untouched |
| `PageAnchors.AnchorNavigator.ScrollToAnchor` | src/composables/usePageAnchors.ts:67-81 | for an existing element the anchor becomes active, the lock is taken and a timer is scheduled; for a missing one nothing changes |
| `PageAnchors.AnchorNavigator.LockTimerFires` | src/composables/usePageAnchors.ts:76-79 | a timer firing releases the lock and re-applies the selection rule to the page |
| `PageAnchors.ClickThenScroll` | src/composables/usePageAnchors.ts:39-79 | after a click on an existing anchor, a scroll event before the timer fires leaves the clicked anchor active and the lock held |
| `RankStyle.RankBadgeClass` | src/utils/rankStyle.ts:7-12 | `getRankBadgeClass`'s chain of returns; characterized by `BadgeClasses` |
| `RankStyle.BadgeClasses` | src/utils/rankStyle.ts:7-12 | ranks 0, 1 and 2 get the gold, silver and bronze badges, which are pairwise different; every other rank, and only those, gets the plain badge |
| `RankStyle.RankBarColor` | src/utils/rankStyle.ts:15-27 | for a non-negative rank the bar colour is one of the eight listed gradients |
| `RankStyle.BarColorPeriodic` | src/utils/rankStyle.ts:15-27 | bar colours repeat with period eight |
| `RankStyle.PodiumBarMatchesBadge` | src/utils/rankStyle.ts:7-19 | for ranks 0 to 2 the badge class is the bar gradient framed by `bg-linear-to-r` and `text-white` |

## Left out

- File reads (`fs.readFileSync`) and logging (`console.log`) in `index.ts` are I/O. The content is a parameter. A read failure is modelled only for `detectFormat`, where the `catch` turns it into `null`.
- The JSON grammar behind `JSON.parse` is library code. It is an arbitrary function parameter, so nothing depends on how it parses.
- JSON numbers are `real`s. Double-precision rounding and overflow to `Infinity` are floating point and are not modelled.
- `JsValues.Prop` only covers the property names the pipeline reads. None of these names is inherited by arrays, strings, numbers or plain objects, so the rule "`undefined` unless the object owns the key" is exact for them.
- Detectors are assumed total: `ChatParser.detect` is a total function, so the model has no detector that throws. In the source, `detectFormat`'s `catch` would swallow such an exception, and `parseFile` would propagate it.
- The internals of the QQ JSON and QQ text parsers are not part of this model. They are arbitrary detect/parse pairs, and so are their names and platforms.
- `ChatPlatform.UNKNOWN` and `ChatType.GROUP` are defined in `src/types/chat`, which is not part of this model. They are taken as the strings `"unknown"` and `"group"`.
- `ImportError.Message`: the JSON error's text leaves out the library's cause (`${e}`), and the TypeError's text is the runtime's own and is not modelled.
- `toLowerCase` is modelled on ASCII letters only. No non-ASCII character lowercases to `.`, `j`, `s`, `o` or `n`, so the `.json` suffix verdict is the same.
- Determinism and the absence of state between imports hold by construction: every detector, parser and dispatch in the model is a function.
- Vue's `ref`, `onMounted`, `onUnmounted`, the scroll listener they add and remove, the container lookup (`containerSelector`), `document.getElementById`, `getBoundingClientRect` and `scrollIntoView` are UI/DOM glue. The page is the `dom` input, and a scroll event is a call to `UpdateActiveAnchor`.
- Element tops are integers: the float `rect.top` and `Math.round` are floating point.
- `setTimeout`'s delay is kept as `scrollLockDuration` but not used. Time is not modelled, only the order of timer events.
- `RankStyle.RankBarColor`: negative and fractional ranks are left out. For fractions and for negative integers other than multiples of 8, JavaScript's `%` gives an index the colour table lacks, and the source returns `undefined`. For -8, -16, … the remainder is `-0`, which indexes the first gradient.
- `RankStyle.BadgeClasses`: ranks are integers. A fractional JavaScript number gets the plain badge in the source, as every integer other than 0–2 does.
