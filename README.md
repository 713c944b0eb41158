# Track selection and seek coordination of react-native-video (iOS)

A Dafny model of `RCTPlayerOperations` (`ios/Video/Features/RCTPlayerOperations.swift`). It covers three operations and the `RCTVideoUnset` sentinel (`Unset = -1`):

- `setSideloadedText` (module `SideloadedText`) picks one sideloaded text track and writes every engine track's `isEnabled` flag, starting from the first legible track. The engine's flat track list appears as two views of the same tracks. `legible: seq<bool>` holds the legible-characteristic test per track. `enabled: array<bool>` holds the flags, and the operation updates it in place. A missing player or item has no tracks.
- `setMediaSelectionTrackForCharacteristic` (module `MediaSelection`) resolves the same criteria against a media-selection group's options. It then selects one option, selects `nil`, or hands the choice to automatic selection.
- `seek` (module `Seek`) skips a seek to the current time. Otherwise it pauses a playing player and issues a single seek with symmetric tolerance.

The playback engine is the class `PlayerModel.Player`. Its field `calls` is the ordered log of `pause`, `seek`, `select` and `selectMediaOptionAutomatically` calls. Swift's `Int(String)` is modelled in `SwiftInt`: an optional sign, ASCII digits, and the 64-bit range. Swift's optional equality is Dafny's equality on `Option`, so `nil == nil` holds. That is why a missing criterion value matches a track whose language or title is missing.

Each loop of the source is a method with a `while` loop that stops with `break`, as the source does. Each method is proved against a specification function: `FirstIndexOf` for every first-match scan, `TextSelection` and `SideloadedTextFlags` for the text tracks, `MediaSelectionDecision` for the group. The lemmas state the source's promises about these functions.

Quirks kept as written:
- `Int("-1")` is the sentinel, so the index "-1" triggers the fallback.
- Other negative indexes pass the `count > index` test. Text selection then enables nothing. Group selection crashes (the `Trap` outcome).
- The caption check at line 65 compares an optional `Bool` with `nil`. It passes whenever the caption settings could be read, whatever they contain.
- The fallback applies to every type except "disabled", including "index", a missing type and unknown types. It yields 0 even when there are no text tracks.
- "disabled" selects `trackCount - firstTextIndex`, which points one past the last engine track. No track is enabled.
- A skipped seek never calls the completion.

The code decides where descriptions of this component disagree with it, and the model follows the code:
- The "index" type and an empty text-track list are not exempt from the accessibility fallback.
- "disabled" is not the unset sentinel.
- `seek` has no "engine not ready" outcome. It always receives a player item, and the seek is either skipped or issued.

## Model

| member | source | states |
|---|---|---|
| SwiftInt.ParseInt | ios/Video/Features/RCTPlayerOperations.swift:53 | `Int(value)` yields only 64-bit values, a negative one only from text that starts with `-`, and nothing for empty text |
| SwiftInt.ParseFormatRoundTrip | ios/Video/Features/RCTPlayerOperations.swift:53 | for every 64-bit `n`, parsing the decimal rendering of `n` gives back `n` |
| SwiftInt.DecimalValue | ios/Video/Features/RCTPlayerOperations.swift:53 | the decimal rendering of `n` is a non-empty run of digits whose value is `n` |
| SwiftInt.ParseMinusOne | ios/Video/Features/RCTPlayerOperations.swift:53 | `Int("-1")` is -1, the `RCTVideoUnset` value |
| PlayerModel.FirstIndexOf | ios/Video/Features/RCTPlayerOperations.swift:18-22 | the first-match scan returns `Unset` exactly when nothing matches; otherwise an in-range position that matches, with no earlier match |
| PlayerModel.FirstIndexOfUnique | ios/Video/Features/RCTPlayerOperations.swift:35-41 | any index with the first-match property (or `Unset` when nothing matches) is the scan's result |
| SideloadedText.FindFirstTextIndex | ios/Video/Features/RCTPlayerOperations.swift:18-22 | the loop finds the first legible engine track, or leaves -1 when there is none |
| SideloadedText.ScanTextTracks | ios/Video/Features/RCTPlayerOperations.swift:33-50 | the loop returns the first text track whose language (title) equals the value, or the sentinel |
| SideloadedText.ResolveTextSelection | ios/Video/Features/RCTPlayerOperations.swift:28-76 | `selectedTrackIndex` after criterion resolution and fallback equals `TextSelection` |
| SideloadedText.SetSideloadedText | ios/Video/Features/RCTPlayerOperations.swift:12-85 | the new `isEnabled` flags are `SideloadedTextFlags` of the old flags: unchanged when no track is legible, otherwise written from the first legible track on |
| SideloadedText.NoLegibleTrackChangesNothing | ios/Video/Features/RCTPlayerOperations.swift:18-26 | with no legible engine track every flag is left as it was |
| SideloadedText.AtMostOneTextTrackEnabled | ios/Video/Features/RCTPlayerOperations.swift:78-84 | tracks before the first legible one keep their flag; from there on a track is enabled iff it is `selected + firstTextIndex`, so at most one is, and none when the selection is unset |
| SideloadedText.PriorFlagsIrrelevant | ios/Video/Features/RCTPlayerOperations.swift:78-84 | two starting states that agree before the first legible track give equal results: the previous flags of text tracks do not matter |
| SideloadedText.WrittenFlagsIgnorePrior | ios/Video/Features/RCTPlayerOperations.swift:78-84 | the final loop's result depends on the old flags only before `firstTextIndex` |
| SideloadedText.SideloadedTextIdempotent | ios/Video/Features/RCTPlayerOperations.swift:78-84 | applying the operation twice with the same inputs gives the flags of applying it once |
| SideloadedText.DisabledTurnsAllTextTracksOff | ios/Video/Features/RCTPlayerOperations.swift:30-84 | "disabled" selects `trackCount - firstTextIndex` whatever the caption settings, and every track from the first legible one on ends disabled |
| SideloadedText.KeyCriterionSelectsFirstMatch | ios/Video/Features/RCTPlayerOperations.swift:33-50 | "language"/"title" select the smallest index whose language/title equals the value; no earlier track matches; with no match the selection stays unset |
| SideloadedText.IndexCriterionSelection | ios/Video/Features/RCTPlayerOperations.swift:51-58 | "index" selects `n` iff the value is present, parses to `n` and `n < textTracks.count` (negative `n` included); otherwise the selection stays unset |
| SideloadedText.FallbackRule | ios/Video/Features/RCTPlayerOperations.swift:61-76 | when the type is not "disabled", the selection is unset and caption settings exist, the result is the first track in the system language or else 0 (also with no text tracks); otherwise the criterion's selection stands |
| SideloadedText.CaptionCheckIgnoresContents | ios/Video/Features/RCTPlayerOperations.swift:63-65 | the caption check passes iff the settings could be read, whatever they contain |
| SideloadedText.MinusOneIndexFallsBack | ios/Video/Features/RCTPlayerOperations.swift:51-76 | the index "-1" leaves the sentinel in place, so the fallback decides when caption settings exist |
| SideloadedText.FrenchScenario | ios/Video/Features/RCTPlayerOperations.swift:33-84 | with text tracks en, fr, es after two other tracks, "language" = "fr" enables exactly engine track 3 and keeps the first two flags |
| SideloadedText.IndexOutOfRangeScenario | ios/Video/Features/RCTPlayerOperations.swift:51-84 | index "5" with one text track enables no text track without caption settings, and the first text track with them |
| MediaSelection.ScanOptions | ios/Video/Features/RCTPlayerOperations.swift:97-111 | the loop selects the first option whose language tag (title) equals the value, `nil` when none does, and crashes at an option without metadata met first |
| MediaSelection.ChooseMediaOption | ios/Video/Features/RCTPlayerOperations.swift:88-125 | the outcome of criterion resolution equals `MediaSelectionDecision` |
| MediaSelection.SetMediaSelectionTrackForCharacteristic | ios/Video/Features/RCTPlayerOperations.swift:87-129 | the engine receives exactly the calls of the decision: none without a group, `selectMediaOptionAutomatically` for automatic selection, one `select` otherwise |
| MediaSelection.NoGroupSelectsNothing | ios/Video/Features/RCTPlayerOperations.swift:91-93 | without a group nothing is selected and no engine call is made |
| MediaSelection.OneCallPerDecision | ios/Video/Features/RCTPlayerOperations.swift:122-128 | exactly one engine call is made iff a group exists and the source does not crash; automatic selection never calls `select` |
| MediaSelection.AutomaticExactlyForOtherTypes | ios/Video/Features/RCTPlayerOperations.swift:95-125 | automatic selection happens iff a group exists and the type is none of "disabled", "language", "title", "index" (a missing type included) |
| MediaSelection.DisabledSelectsNil | ios/Video/Features/RCTPlayerOperations.swift:95-96 | "disabled" selects `nil` |
| MediaSelection.LanguageSelectsFirstMatch | ios/Video/Features/RCTPlayerOperations.swift:97-111 | "language" selects the first option whose extended language tag equals the value; with no match it selects `nil` |
| MediaSelection.TitleSelectsFirstMatch | ios/Video/Features/RCTPlayerOperations.swift:97-111 | "title" selects the first option whose first metadata value equals the value, or `nil` when none does; a crash means an option without metadata came before any match |
| MediaSelection.IndexSelection | ios/Video/Features/RCTPlayerOperations.swift:114-121 | "index" selects option `n` iff the value parses to `n` with `0 <= n < options.count`; a negative number crashes; anything else selects `nil` |
| Seek.Seek | ios/Video/Features/RCTPlayerOperations.swift:131-155 | the engine receives `SeekCalls`, and the completion receives the engine's `finished`, or is not called when the seek is skipped |
| Seek.SkippedSeekIsSilent | ios/Video/Features/RCTPlayerOperations.swift:142-145 | when the current time equals the target there is no pause, no seek and no completion call |
| Seek.SeekPausesThenSeeksOnce | ios/Video/Features/RCTPlayerOperations.swift:147-154 | otherwise a pause comes first iff the player was playing, then exactly one seek to the target with `toleranceBefore == toleranceAfter == seekTolerance` ms at timescale 1000; no resume; `finished` is passed on unchanged |
| Seek.SameTimeScenario | ios/Video/Features/RCTPlayerOperations.swift:142-145 | a seek to 12.000 s at 12.000 s with 50 ms tolerance is skipped |

## Left out

- AVFoundation and MediaAccessibility internals become inputs. This covers the legible-characteristic test, the caption-characteristics array (`captionSettings`, `None` when it cannot be read), `NSLocale.preferredLanguages.first` (`systemLanguage`) and the group `getMediaSelectionGroup` returns (`group`). The engine calls `pause`, `seek`, `select` and `selectMediaOptionAutomatically` are recorded in `Player.calls`; their effects on playback are not modelled.
- `async`/`await`: group lookup and selection are modelled as synchronous. Suspension, ordering and concurrent calls are not modelled.
- Floating-point time: `seekTime`, `seekTolerance` and the current time are whole milliseconds. The rounding in `CMTimeMakeWithSeconds`, the truncation in `Int64(seekTolerance)`, and `CMTimeCompare` across different timescales are not modelled.
- Seek.Seek: the completion handler runs asynchronously in the source. The model returns the value the completion would receive (`engineFinished`), and does not model when it arrives or on which thread.
- Swift compares strings by Unicode canonical equivalence. The model compares them as character sequences.
- Crash paths in group selection are modelled as the `Trap` outcome, with no engine call. These are `commonMetadata.map(\.value)[0]` on an option without metadata and `group.options[indexValue]` with a negative index. What happens after the crash is not modelled.
- The engine's track list is read once per call. The model assumes the list does not change while `setSideloadedText` runs.
- `ios/Video/DataStructures/DRMParams.swift` is not part of this model. It only copies fields out of a dictionary.
