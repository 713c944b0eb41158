/** `RCTPlayerOperations.setSideloadedText`: choose one sideloaded text track
    and write the `isEnabled` flag of every engine track from the first
    legible one on.

    The engine's flat track list is given as two views of the same tracks:
    `legible[i]` says whether track `i` has the legible media characteristic,
    and the array `enabled` holds the tracks' `isEnabled` flags. A missing
    player or item has no tracks. */
module SideloadedText {
  import opened Optionals
  import opened SwiftInt
  import opened PlayerModel

  /** The raw value of `AVMediaCharacteristic.transcribesSpokenDialogForAccessibility`. */
  const TranscribesSpokenDialog: string := "public.accessibility.transcribes-spoken-dialog"

  function Languages(tracks: seq<TextTrack>): (r: seq<Option<string>>)
    ensures |r| == |tracks| && forall i :: 0 <= i < |tracks| ==> r[i] == tracks[i].language
  {
    seq(|tracks|, i requires 0 <= i < |tracks| => tracks[i].language)
  }

  function Titles(tracks: seq<TextTrack>): (r: seq<Option<string>>)
    ensures |r| == |tracks| && forall i :: 0 <= i < |tracks| ==> r[i] == tracks[i].title
  {
    seq(|tracks|, i requires 0 <= i < |tracks| => tracks[i].title)
  }

  /** The selection the criterion alone yields, before the accessibility
      fallback. "disabled" yields `trackCount - firstTextIndex`, which points
      one past the last engine track. */
  function CriterionSelection(trackCount: int, firstTextIndex: int, textTracks: seq<TextTrack>,
                              criteria: Option<SelectedTrackCriteria>): int
  {
    var kind := TypeOf(criteria);
    if kind == Some("disabled") then trackCount - firstTextIndex
    else if kind == Some("language") then FirstIndexOf(Languages(textTracks), ValueOf(criteria))
    else if kind == Some("title") then FirstIndexOf(Titles(textTracks), ValueOf(criteria))
    else if kind == Some("index") then
      match ValueOf(criteria)
      case None => Unset
      case Some(v) =>
        match ParseInt(v)
        case None => Unset
        case Some(n) => if |textTracks| > n then n else Unset
    else Unset
  }

  /** `captionSettings?.contains(c)`: `nil` when the settings could not be read. */
  function OptionalContains(captionSettings: Option<seq<string>>, c: string): Option<bool>
  {
    match captionSettings
    case None => None
    case Some(settings) => Some(c in settings)
  }

  /** The caption check: `(captionSettings?.contains(...)) != nil`. */
  predicate CaptionCheck(captionSettings: Option<seq<string>>)
  {
    OptionalContains(captionSettings, TranscribesSpokenDialog) != None
  }

  /** The accessibility fallback: the first text track in the system's
      preferred language, else 0. */
  function FallbackSelection(textTracks: seq<TextTrack>, systemLanguage: Option<string>): int
  {
    var k := FirstIndexOf(Languages(textTracks), systemLanguage);
    if k == Unset then 0 else k
  }

  predicate FallbackFires(selected: int, criteria: Option<SelectedTrackCriteria>,
                          captionSettings: Option<seq<string>>)
  {
    TypeOf(criteria) != Some("disabled") && selected == Unset && CaptionCheck(captionSettings)
  }

  /** The value of `selectedTrackIndex` when the flags are written. */
  function TextSelection(trackCount: int, firstTextIndex: int, textTracks: seq<TextTrack>,
                         criteria: Option<SelectedTrackCriteria>,
                         captionSettings: Option<seq<string>>, systemLanguage: Option<string>): int
  {
    var selected := CriterionSelection(trackCount, firstTextIndex, textTracks, criteria);
    if FallbackFires(selected, criteria, captionSettings)
    then FallbackSelection(textTracks, systemLanguage)
    else selected
  }

  /** The flags after the final loop: tracks before `firstTextIndex` keep
      their flag, a track from there on is enabled exactly when it is
      engine track `selected + firstTextIndex`. */
  function WrittenFlags(flags: seq<bool>, firstTextIndex: nat, selected: int): seq<bool>
    requires firstTextIndex <= |flags|
  {
    seq(|flags|, i requires 0 <= i < |flags| =>
      if i < firstTextIndex then flags[i] else selected != Unset && i == selected + firstTextIndex)
  }

  /** The `isEnabled` flags after `setSideloadedText`, given the flags before. */
  function SideloadedTextFlags(legible: seq<bool>, flags: seq<bool>, textTracks: seq<TextTrack>,
                               criteria: Option<SelectedTrackCriteria>,
                               captionSettings: Option<seq<string>>, systemLanguage: Option<string>): seq<bool>
    requires |flags| == |legible|
  {
    var firstTextIndex := FirstIndexOf(legible, true);
    if firstTextIndex == Unset then flags
    else WrittenFlags(flags, firstTextIndex,
                      TextSelection(|legible|, firstTextIndex, textTracks, criteria, captionSettings, systemLanguage))
  }

  // ---------------------------------------------------------------------------
  // The operation

  /** The scan for the first legible engine track. */
  method FindFirstTextIndex(legible: seq<bool>) returns (firstTextIndex: int)
    ensures firstTextIndex == FirstIndexOf(legible, true)
  {
    firstTextIndex := -1;
    var i := 0;
    while i < |legible|
      invariant 0 <= i <= |legible|
      invariant forall j :: 0 <= j < i ==> !legible[j]
    {
      if legible[i] {
        firstTextIndex := i;
        break;
      }
      i := i + 1;
    }
    assert firstTextIndex != Unset ==> legible[..firstTextIndex] == legible[..i];
    FirstIndexOfUnique(legible, true, firstTextIndex);
  }

  /** The scan of the text tracks for the first one whose language
      (`byLanguage`) or title equals `value`. */
  method ScanTextTracks(textTracks: seq<TextTrack>, byLanguage: bool, value: Option<string>)
    returns (index: int)
    ensures index == FirstIndexOf(if byLanguage then Languages(textTracks) else Titles(textTracks), value)
  {
    ghost var keys := if byLanguage then Languages(textTracks) else Titles(textTracks);
    index := Unset;
    var i := 0;
    while i < |textTracks|
      invariant 0 <= i <= |textTracks|
      invariant forall j :: 0 <= j < i ==> keys[j] != value
    {
      var currentTextTrack := textTracks[i];
      if value == (if byLanguage then currentTextTrack.language else currentTextTrack.title) {
        index := i;
        break;
      }
      i := i + 1;
    }
    assert index != Unset ==> keys[..index] == keys[..i];
    FirstIndexOfUnique(keys, value, index);
  }

  /** Everything from the sentinel initialisation to the end of the
      accessibility fallback: the value of `selectedTrackIndex`. */
  method ResolveTextSelection(trackCount: int, firstTextIndex: int, textTracks: seq<TextTrack>,
                              criteria: Option<SelectedTrackCriteria>,
                              captionSettings: Option<seq<string>>, systemLanguage: Option<string>)
    returns (selectedTrackIndex: int)
    ensures selectedTrackIndex
            == TextSelection(trackCount, firstTextIndex, textTracks, criteria, captionSettings, systemLanguage)
  {
    var kind := TypeOf(criteria);
    selectedTrackIndex := Unset;
    if kind == Some("disabled") {
      selectedTrackIndex := trackCount - firstTextIndex;
    } else if kind == Some("language") {
      selectedTrackIndex := ScanTextTracks(textTracks, true, ValueOf(criteria));
    } else if kind == Some("title") {
      selectedTrackIndex := ScanTextTracks(textTracks, false, ValueOf(criteria));
    } else if kind == Some("index") {
      var value := ValueOf(criteria);
      if value.Some? {
        var indexValue := ParseInt(value.value);
        if indexValue.Some? {
          if |textTracks| > indexValue.value {
            selectedTrackIndex := indexValue.value;
          }
        }
      }
    }
    assert selectedTrackIndex == CriterionSelection(trackCount, firstTextIndex, textTracks, criteria);

    if kind != Some("disabled") && selectedTrackIndex == Unset {
      var captionSettingsPresent := OptionalContains(captionSettings, TranscribesSpokenDialog) != None;
      if captionSettingsPresent {
        var systemMatch := ScanTextTracks(textTracks, true, systemLanguage);
        selectedTrackIndex := if systemMatch == Unset then 0 else systemMatch;
      }
    }
  }

  /** `setSideloadedText`: nothing changes when no engine track is legible;
      otherwise every track from the first legible one on is written. */
  method SetSideloadedText(legible: seq<bool>, enabled: array<bool>, textTracks: seq<TextTrack>,
                           criteria: Option<SelectedTrackCriteria>,
                           captionSettings: Option<seq<string>>, systemLanguage: Option<string>)
    requires enabled.Length == |legible|
    modifies enabled
    ensures enabled[..]
            == SideloadedTextFlags(legible, old(enabled[..]), textTracks, criteria, captionSettings, systemLanguage)
  {
    var trackCount := |legible|;
    var firstTextIndex := FindFirstTextIndex(legible);
    if firstTextIndex == Unset {
      return;
    }
    var selectedTrackIndex :=
      ResolveTextSelection(trackCount, firstTextIndex, textTracks, criteria, captionSettings, systemLanguage);
    var i := firstTextIndex;
    while i < trackCount
      invariant firstTextIndex <= i <= trackCount
      invariant forall j :: 0 <= j < firstTextIndex ==> enabled[j] == old(enabled[j])
      invariant forall j :: firstTextIndex <= j < i ==>
                  enabled[j] == (selectedTrackIndex != Unset && j == selectedTrackIndex + firstTextIndex)
    {
      var isEnabled := false;
      if selectedTrackIndex != Unset {
        isEnabled := i == selectedTrackIndex + firstTextIndex;
      }
      enabled[i] := isEnabled;
      i := i + 1;
    }
  }

  // ---------------------------------------------------------------------------
  // Properties

  /** With no legible engine track the operation returns before writing. */
  lemma NoLegibleTrackChangesNothing(legible: seq<bool>, flags: seq<bool>, textTracks: seq<TextTrack>,
                                     criteria: Option<SelectedTrackCriteria>,
                                     captionSettings: Option<seq<string>>, systemLanguage: Option<string>)
    requires |flags| == |legible|
    requires forall i :: 0 <= i < |legible| ==> !legible[i]
    ensures SideloadedTextFlags(legible, flags, textTracks, criteria, captionSettings, systemLanguage) == flags
  {
    assert true !in legible;
  }

  /** Tracks before the first legible one keep their flag; from there on at
      most one track is enabled, and it is `selected + firstTextIndex`; none
      is enabled when the selection is unset. */
  lemma AtMostOneTextTrackEnabled(legible: seq<bool>, flags: seq<bool>, textTracks: seq<TextTrack>,
                                  criteria: Option<SelectedTrackCriteria>,
                                  captionSettings: Option<seq<string>>, systemLanguage: Option<string>)
    requires |flags| == |legible|
    requires FirstIndexOf(legible, true) != Unset
    ensures var first := FirstIndexOf(legible, true);
            var selected := TextSelection(|legible|, first, textTracks, criteria, captionSettings, systemLanguage);
            var r := SideloadedTextFlags(legible, flags, textTracks, criteria, captionSettings, systemLanguage);
            |r| == |flags| &&
            (forall i :: 0 <= i < first ==> r[i] == flags[i]) &&
            (forall i :: first <= i < |r| ==> (r[i] <==> selected != Unset && i == selected + first)) &&
            (forall i, j :: first <= i < |r| && first <= j < |r| && r[i] && r[j] ==> i == j) &&
            (selected == Unset ==> forall i :: first <= i < |r| ==> !r[i])
  {
  }

  /** The written flags do not depend on the flags before the call: two
      starting states that agree before the first legible track end equal. */
  lemma PriorFlagsIrrelevant(legible: seq<bool>, flags1: seq<bool>, flags2: seq<bool>, textTracks: seq<TextTrack>,
                             criteria: Option<SelectedTrackCriteria>,
                             captionSettings: Option<seq<string>>, systemLanguage: Option<string>)
    requires |flags1| == |legible| && |flags2| == |legible|
    requires FirstIndexOf(legible, true) != Unset
    requires forall i :: 0 <= i < FirstIndexOf(legible, true) ==> flags1[i] == flags2[i]
    ensures SideloadedTextFlags(legible, flags1, textTracks, criteria, captionSettings, systemLanguage)
            == SideloadedTextFlags(legible, flags2, textTracks, criteria, captionSettings, systemLanguage)
  {
    var first := FirstIndexOf(legible, true);
    var selected := TextSelection(|legible|, first, textTracks, criteria, captionSettings, systemLanguage);
    WrittenFlagsIgnorePrior(flags1, flags2, first, selected);
  }

  lemma WrittenFlagsIgnorePrior(flags1: seq<bool>, flags2: seq<bool>, firstTextIndex: nat, selected: int)
    requires |flags1| == |flags2| && firstTextIndex <= |flags1|
    requires forall i :: 0 <= i < firstTextIndex ==> flags1[i] == flags2[i]
    ensures WrittenFlags(flags1, firstTextIndex, selected) == WrittenFlags(flags2, firstTextIndex, selected)
  {
    var r1, r2 := WrittenFlags(flags1, firstTextIndex, selected), WrittenFlags(flags2, firstTextIndex, selected);
    assert forall i :: 0 <= i < |r1| ==> r1[i] == r2[i];
  }

  /** Applying the same inputs twice gives the flags of applying them once. */
  lemma {:induction false} SideloadedTextIdempotent(legible: seq<bool>, flags: seq<bool>, textTracks: seq<TextTrack>,
                                 criteria: Option<SelectedTrackCriteria>,
                                 captionSettings: Option<seq<string>>, systemLanguage: Option<string>)
    requires |flags| == |legible|
    ensures var once := SideloadedTextFlags(legible, flags, textTracks, criteria, captionSettings, systemLanguage);
            |once| == |legible| &&
            SideloadedTextFlags(legible, once, textTracks, criteria, captionSettings, systemLanguage) == once
  {
    var once := SideloadedTextFlags(legible, flags, textTracks, criteria, captionSettings, systemLanguage);
    var first := FirstIndexOf(legible, true);
    if first != Unset {
      PriorFlagsIrrelevant(legible, once, flags, textTracks, criteria, captionSettings, systemLanguage);
    }
  }

  /** "disabled" selects `trackCount - firstTextIndex` whatever the caption
      settings and system language, so no track from the first legible one
      on stays enabled. */
  lemma DisabledTurnsAllTextTracksOff(legible: seq<bool>, flags: seq<bool>, textTracks: seq<TextTrack>,
                                      criteria: Option<SelectedTrackCriteria>,
                                      captionSettings: Option<seq<string>>, systemLanguage: Option<string>)
    requires |flags| == |legible|
    requires TypeOf(criteria) == Some("disabled")
    requires FirstIndexOf(legible, true) != Unset
    ensures var first := FirstIndexOf(legible, true);
            TextSelection(|legible|, first, textTracks, criteria, captionSettings, systemLanguage) == |legible| - first
    ensures var first := FirstIndexOf(legible, true);
            var r := SideloadedTextFlags(legible, flags, textTracks, criteria, captionSettings, systemLanguage);
            forall i :: first <= i < |legible| ==> !r[i]
  {
  }

  /** "language" and "title" select the first text track whose language
      (title) equals the value, or leave the selection unset when none does. */
  lemma KeyCriterionSelectsFirstMatch(trackCount: int, firstTextIndex: int, textTracks: seq<TextTrack>,
                                      criteria: Option<SelectedTrackCriteria>)
    requires TypeOf(criteria) == Some("language") || TypeOf(criteria) == Some("title")
    ensures var r := CriterionSelection(trackCount, firstTextIndex, textTracks, criteria);
            var value := ValueOf(criteria);
            var byLanguage := TypeOf(criteria) == Some("language");
            Unset <= r < |textTracks| &&
            (r != Unset ==> (if byLanguage then textTracks[r].language else textTracks[r].title) == value) &&
            (forall j :: 0 <= j < |textTracks| && (j < r || r == Unset) ==>
               (if byLanguage then textTracks[j].language else textTracks[j].title) != value)
  {
    var keys := if TypeOf(criteria) == Some("language") then Languages(textTracks) else Titles(textTracks);
    var r := CriterionSelection(trackCount, firstTextIndex, textTracks, criteria);
    assert r == FirstIndexOf(keys, ValueOf(criteria));
    forall j | 0 <= j < |textTracks| && (j < r || r == Unset) ensures keys[j] != ValueOf(criteria) {
      if r != Unset {
        assert keys[j] == keys[..r][j];
      }
    }
  }

  /** "index" selects `n` exactly when the value is present, `Int(value)`
      is `n`, and `n` is below the number of text tracks; a negative `n`
      passes that test. Otherwise the selection stays unset. */
  lemma IndexCriterionSelection(trackCount: int, firstTextIndex: int, textTracks: seq<TextTrack>,
                                criteria: Option<SelectedTrackCriteria>, n: int)
    requires TypeOf(criteria) == Some("index")
    ensures n != Unset ==>
              (CriterionSelection(trackCount, firstTextIndex, textTracks, criteria) == n <==>
               ValueOf(criteria).Some? && ParseInt(ValueOf(criteria).value) == Some(n) && n < |textTracks|)
    ensures (ValueOf(criteria).None? || ParseInt(ValueOf(criteria).value).None? ||
             ParseInt(ValueOf(criteria).value).value >= |textTracks|) ==>
              CriterionSelection(trackCount, firstTextIndex, textTracks, criteria) == Unset
  {
  }

  /** The fallback fires for every type but "disabled" when the selection is
      still unset and the caption check passes; it then picks the first text
      track in the system language, else 0 (also when there are no text
      tracks). Otherwise the criterion's selection stands. */
  lemma FallbackRule(trackCount: int, firstTextIndex: int, textTracks: seq<TextTrack>,
                     criteria: Option<SelectedTrackCriteria>,
                     captionSettings: Option<seq<string>>, systemLanguage: Option<string>)
    ensures var selected := CriterionSelection(trackCount, firstTextIndex, textTracks, criteria);
            var r := TextSelection(trackCount, firstTextIndex, textTracks, criteria, captionSettings, systemLanguage);
            var fires := TypeOf(criteria) != Some("disabled") && selected == Unset && captionSettings.Some?;
            (!fires ==> r == selected) &&
            (fires ==> 0 <= r && (|textTracks| == 0 ==> r == 0) &&
                       ((r < |textTracks| && textTracks[r].language == systemLanguage)
                        || (r == 0 && forall j :: 0 <= j < |textTracks| ==> textTracks[j].language != systemLanguage)) &&
                       (forall j :: 0 <= j < r && j < |textTracks| ==> textTracks[j].language != systemLanguage))
  {
    var selected := CriterionSelection(trackCount, firstTextIndex, textTracks, criteria);
    if TypeOf(criteria) != Some("disabled") && selected == Unset && captionSettings.Some? {
      var langs := Languages(textTracks);
      var k := FirstIndexOf(langs, systemLanguage);
      if k != Unset {
        forall j | 0 <= j < k ensures textTracks[j].language != systemLanguage {
          assert langs[j] == langs[..k][j];
        }
      } else {
        forall j | 0 <= j < |textTracks| ensures textTracks[j].language != systemLanguage {
          assert langs[j] in langs;
        }
      }
    }
  }

  /** The caption check passes whenever the caption settings could be read,
      whether or not they ask for transcribed dialog. */
  lemma CaptionCheckIgnoresContents(captionSettings: Option<seq<string>>)
    ensures CaptionCheck(captionSettings) <==> captionSettings.Some?
  {
  }

  /** `Int("-1")` is the sentinel itself, so the index "-1" leaves the
      selection unset and the fallback decides. */
  lemma MinusOneIndexFallsBack(trackCount: int, firstTextIndex: int, textTracks: seq<TextTrack>,
                               captionSettings: Option<seq<string>>, systemLanguage: Option<string>)
    requires captionSettings.Some?
    ensures var criteria := Some(SelectedTrackCriteria("index", Some("-1")));
            TextSelection(trackCount, firstTextIndex, textTracks, criteria, captionSettings, systemLanguage)
            == FallbackSelection(textTracks, systemLanguage)
  {
    ParseMinusOne();
  }

  /** Tracks en, fr, es after one audio and one video track; "language" =
      "fr" enables engine track 3 and only it. */
  lemma FrenchScenario(flags: seq<bool>, captionSettings: Option<seq<string>>, systemLanguage: Option<string>)
    requires |flags| == 5
    ensures var tracks := [TextTrack(Some("en"), None), TextTrack(Some("fr"), None), TextTrack(Some("es"), None)];
            var criteria := Some(SelectedTrackCriteria("language", Some("fr")));
            SideloadedTextFlags([false, false, true, true, true], flags, tracks, criteria, captionSettings, systemLanguage)
            == flags[..2] + [false, true, false]
  {
    var legible := [false, false, true, true, true];
    var tracks := [TextTrack(Some("en"), None), TextTrack(Some("fr"), None), TextTrack(Some("es"), None)];
    FirstIndexOfUnique(legible, true, 2);
    FirstIndexOfUnique(Languages(tracks), Some("fr"), 1);
  }

  /** One text track and "index" = "5": without caption settings no text
      track is enabled; with them the fallback enables the first one. */
  lemma IndexOutOfRangeScenario(flags: seq<bool>, systemLanguage: Option<string>)
    requires |flags| == 2
    ensures var tracks := [TextTrack(None, Some("Commentary"))];
            var criteria := Some(SelectedTrackCriteria("index", Some("5")));
            SideloadedTextFlags([false, true], flags, tracks, criteria, None, systemLanguage) == [flags[0], false] &&
            SideloadedTextFlags([false, true], flags, tracks, criteria, Some([]), systemLanguage) == [flags[0], true]
  {
    FirstIndexOfUnique([false, true], true, 1);
    assert "5"[..0] == [];
    assert ParseInt("5") == Some(5);
  }
}
