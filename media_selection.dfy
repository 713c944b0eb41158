/** `RCTPlayerOperations.setMediaSelectionTrackForCharacteristic`: resolve a
    criterion against the options of the media-selection group the asset
    has for one characteristic, then either select one option, select `nil`
    (turn the characteristic off) or let the engine choose. */
module MediaSelection {
  import opened Optionals
  import opened SwiftInt
  import opened PlayerModel

  /** What the operation does. `Trap` is a run-time crash of the source:
      reading the first metadata value of an option that has none, or
      indexing the options with a negative number. */
  datatype MediaSelectionOutcome =
    | NoGroup
    | Automatic
    | Select(option: Option<nat>)
    | Trap

  /** What reading an option's title gives: its first common-metadata value
      as a string, or a crash when it has no metadata. */
  datatype TitleProbe = Readable(title: Option<string>) | Crashes

  function ProbeTitle(o: MediaOption): TitleProbe
  {
    if |o.commonMetadataValues| == 0 then Crashes else Readable(o.commonMetadataValues[0])
  }

  function LanguageTags(options: seq<MediaOption>): (r: seq<Option<string>>)
    ensures |r| == |options| && forall i :: 0 <= i < |options| ==> r[i] == options[i].extendedLanguageTag
  {
    seq(|options|, i requires 0 <= i < |options| => options[i].extendedLanguageTag)
  }

  function TitleProbes(options: seq<MediaOption>): (r: seq<TitleProbe>)
    ensures |r| == |options| && forall i :: 0 <= i < |options| ==> r[i] == ProbeTitle(options[i])
  {
    seq(|options|, i requires 0 <= i < |options| => ProbeTitle(options[i]))
  }

  function AsOption(k: int): Option<nat>
  {
    if k < 0 then None else Some(k)
  }

  /** The "language" / "title" scan: the first option whose tag (title)
      equals the value; by title, a crash on an option without metadata
      met before any match. */
  function MatchOption(options: seq<MediaOption>, byLanguage: bool, value: Option<string>): MediaSelectionOutcome
  {
    if byLanguage then Select(AsOption(FirstIndexOf(LanguageTags(options), value)))
    else
      var probes := TitleProbes(options);
      var hit := FirstIndexOf(probes, Readable(value));
      var crash := FirstIndexOf(probes, Crashes);
      if crash != Unset && (hit == Unset || crash < hit) then Trap else Select(AsOption(hit))
  }

  /** The decision, given the group found for the characteristic (if any). */
  function MediaSelectionDecision(group: Option<seq<MediaOption>>, criteria: Option<SelectedTrackCriteria>)
    : MediaSelectionOutcome
  {
    match group
    case None => NoGroup
    case Some(options) =>
      var kind := TypeOf(criteria);
      if kind == Some("disabled") then Select(None)
      else if kind == Some("language") || kind == Some("title") then
        MatchOption(options, kind == Some("language"), ValueOf(criteria))
      else if kind == Some("index") then
        match ValueOf(criteria)
        case None => Select(None)
        case Some(v) =>
          match ParseInt(v)
          case None => Select(None)
          case Some(n) => if |options| > n then (if n < 0 then Trap else Select(Some(n))) else Select(None)
      else Automatic
  }

  /** The engine calls that carry out a decision. */
  function DecisionCalls(outcome: MediaSelectionOutcome): seq<EngineCall>
  {
    match outcome
    case NoGroup => []
    case Automatic => [SelectMediaOptionAutomatically]
    case Select(option) => [SelectMediaOption(option)]
    case Trap => []
  }

  // ---------------------------------------------------------------------------
  // The operation

  /** The option scan for "language" and "title". */
  method ScanOptions(options: seq<MediaOption>, byLanguage: bool, value: Option<string>)
    returns (outcome: MediaSelectionOutcome)
    ensures outcome == MatchOption(options, byLanguage, value)
  {
    ghost var tags, probes := LanguageTags(options), TitleProbes(options);
    var mediaOption: Option<nat> := None;
    var i := 0;
    while i < |options|
      invariant 0 <= i <= |options|
      invariant byLanguage ==> forall j :: 0 <= j < i ==> tags[j] != value
      invariant !byLanguage ==> forall j :: 0 <= j < i ==> probes[j] != Readable(value) && probes[j] != Crashes
    {
      var currentOption := options[i];
      var optionValue: Option<string>;
      if byLanguage {
        optionValue := currentOption.extendedLanguageTag;
      } else {
        if |currentOption.commonMetadataValues| == 0 {
          FirstIndexOfUnique(probes, Crashes, i);
          return Trap;
        }
        optionValue := currentOption.commonMetadataValues[0];
      }
      if value == optionValue {
        mediaOption := Some(i);
        break;
      }
      i := i + 1;
    }
    if byLanguage {
      assert mediaOption.Some? ==> tags[..mediaOption.value] == tags[..i];
      FirstIndexOfUnique(tags, value, if mediaOption.Some? then mediaOption.value else Unset);
    } else {
      assert mediaOption.Some? ==> probes[..mediaOption.value] == probes[..i];
      FirstIndexOfUnique(probes, Readable(value), if mediaOption.Some? then mediaOption.value else Unset);
      if FirstIndexOf(probes, Crashes) != Unset {
        assert mediaOption.Some? && mediaOption.value < FirstIndexOf(probes, Crashes);
      }
    }
    outcome := Select(mediaOption);
  }

  /** Resolve the criterion against the group; no engine call. */
  method ChooseMediaOption(group: Option<seq<MediaOption>>, criteria: Option<SelectedTrackCriteria>)
    returns (outcome: MediaSelectionOutcome)
    ensures outcome == MediaSelectionDecision(group, criteria)
  {
    if group.None? {
      return NoGroup;
    }
    var options := group.value;
    var kind := TypeOf(criteria);
    var mediaOption: Option<nat> := None;
    if kind == Some("disabled") {
      // the option stays nil
    } else if kind == Some("language") || kind == Some("title") {
      outcome := ScanOptions(options, kind == Some("language"), ValueOf(criteria));
      return;
    } else if kind == Some("index") {
      var value := ValueOf(criteria);
      if value.Some? {
        var indexValue := ParseInt(value.value);
        if indexValue.Some? {
          if |options| > indexValue.value {
            if indexValue.value < 0 {
              return Trap;
            }
            mediaOption := Some(indexValue.value);
          }
        }
      }
    } else {
      return Automatic;
    }
    outcome := Select(mediaOption);
  }

  /** `setMediaSelectionTrackForCharacteristic`, with the group that
      `getMediaSelectionGroup` returned for the characteristic. */
  method SetMediaSelectionTrackForCharacteristic(player: Player, group: Option<seq<MediaOption>>,
                                                 criteria: Option<SelectedTrackCriteria>)
    returns (outcome: MediaSelectionOutcome)
    modifies player
    ensures outcome == MediaSelectionDecision(group, criteria)
    ensures player.calls == old(player.calls) + DecisionCalls(outcome)
  {
    outcome := ChooseMediaOption(group, criteria);
    match outcome
    case NoGroup =>
    case Trap =>
    case Automatic =>
      player.SelectAutomatically();
    case Select(option) =>
      player.Select(option);
  }

  // ---------------------------------------------------------------------------
  // Properties

  /** Without a group nothing is selected and the engine is not called. */
  lemma NoGroupSelectsNothing(criteria: Option<SelectedTrackCriteria>)
    ensures MediaSelectionDecision(None, criteria) == NoGroup
    ensures DecisionCalls(MediaSelectionDecision(None, criteria)) == []
  {
  }

  /** Exactly one engine call is made unless there is no group or the
      source crashes; `select` is never called when the engine chooses. */
  lemma OneCallPerDecision(group: Option<seq<MediaOption>>, criteria: Option<SelectedTrackCriteria>)
    ensures var outcome := MediaSelectionDecision(group, criteria);
            var calls := DecisionCalls(outcome);
            (|calls| == 1 <==> group.Some? && !outcome.Trap?) &&
            (outcome.Automatic? ==> calls == [SelectMediaOptionAutomatically]) &&
            (outcome.Select? ==> calls == [SelectMediaOption(outcome.option)])
  {
  }

  /** The engine chooses exactly when there is a group and the type is none
      of "disabled", "language", "title", "index" (including "system" and a
      missing type). */
  lemma AutomaticExactlyForOtherTypes(group: Option<seq<MediaOption>>, criteria: Option<SelectedTrackCriteria>)
    ensures var kind := TypeOf(criteria);
            MediaSelectionDecision(group, criteria) == Automatic <==>
            group.Some? && kind != Some("disabled") && kind != Some("language") &&
            kind != Some("title") && kind != Some("index")
  {
  }

  /** "disabled" selects `nil`. */
  lemma DisabledSelectsNil(options: seq<MediaOption>, criteria: Option<SelectedTrackCriteria>)
    requires TypeOf(criteria) == Some("disabled")
    ensures MediaSelectionDecision(Some(options), criteria) == Select(None)
  {
  }

  /** "language" selects the first option whose extended language tag equals
      the value, and `nil` when none does. */
  lemma LanguageSelectsFirstMatch(options: seq<MediaOption>, criteria: Option<SelectedTrackCriteria>)
    requires TypeOf(criteria) == Some("language")
    ensures var outcome := MediaSelectionDecision(Some(options), criteria);
            var value := ValueOf(criteria);
            outcome.Select? &&
            (outcome.option.Some? ==>
               outcome.option.value < |options| && options[outcome.option.value].extendedLanguageTag == value) &&
            (forall j :: 0 <= j < |options| && (outcome.option.None? || j < outcome.option.value) ==>
               options[j].extendedLanguageTag != value)
  {
    var tags := LanguageTags(options);
    var k := FirstIndexOf(tags, ValueOf(criteria));
    if k != Unset {
      forall j | 0 <= j < k ensures tags[j] != ValueOf(criteria) {
        assert tags[j] == tags[..k][j];
      }
    }
  }

  /** "title" selects the first option whose first metadata value equals
      the value, and `nil` when none does; an option without metadata met
      before a match crashes the scan. */
  lemma TitleSelectsFirstMatch(options: seq<MediaOption>, criteria: Option<SelectedTrackCriteria>)
    requires TypeOf(criteria) == Some("title")
    ensures var outcome := MediaSelectionDecision(Some(options), criteria);
            var value := ValueOf(criteria);
            (outcome.Select? || outcome.Trap?) &&
            (outcome.Select? && outcome.option.Some? ==>
               var k := outcome.option.value;
               k < |options| && 0 < |options[k].commonMetadataValues| &&
               options[k].commonMetadataValues[0] == value &&
               forall j :: 0 <= j < k ==>
                 0 < |options[j].commonMetadataValues| && options[j].commonMetadataValues[0] != value) &&
            (outcome.Select? && outcome.option.None? ==>
               forall j :: 0 <= j < |options| ==>
                 0 < |options[j].commonMetadataValues| && options[j].commonMetadataValues[0] != value) &&
            (outcome.Trap? ==>
               exists k :: 0 <= k < |options| && |options[k].commonMetadataValues| == 0 &&
                 forall j :: 0 <= j < k ==>
                   0 < |options[j].commonMetadataValues| && options[j].commonMetadataValues[0] != value)
  {
    var value := ValueOf(criteria);
    var probes := TitleProbes(options);
    var hit := FirstIndexOf(probes, Readable(value));
    var crash := FirstIndexOf(probes, Crashes);
    // Every option before the first match and before the first crash reads
    // as a title other than the value.
    forall j | 0 <= j < |options| && (hit == Unset || j < hit) && (crash == Unset || j < crash)
      ensures 0 < |options[j].commonMetadataValues| && options[j].commonMetadataValues[0] != value
    {
      if hit != Unset { assert probes[j] == probes[..hit][j]; }
      if crash != Unset { assert probes[j] == probes[..crash][j]; }
      assert probes[j] != Crashes && probes[j] != Readable(value);
    }
    if crash != Unset && (hit == Unset || crash < hit) {
      assert |options[crash].commonMetadataValues| == 0;
    } else if hit != Unset {
      assert crash == Unset || hit < crash by {
        assert probes[hit] != Crashes;
      }
    } else {
      assert crash == Unset;
    }
  }

  /** "index" selects option `n` exactly when the value is present,
      `Int(value)` is `n` and `0 <= n < options.count`; a negative number
      passes the range test and crashes; anything else selects `nil`. */
  lemma IndexSelection(options: seq<MediaOption>, criteria: Option<SelectedTrackCriteria>)
    requires TypeOf(criteria) == Some("index")
    ensures var outcome := MediaSelectionDecision(Some(options), criteria);
            var parsed := if ValueOf(criteria).Some? then ParseInt(ValueOf(criteria).value) else None;
            (forall n: nat :: outcome == Select(Some(n)) <==> parsed == Some(n) && n < |options|) &&
            (outcome == Trap <==> parsed.Some? && parsed.value < 0) &&
            (outcome == Select(None) <==> parsed.None? || parsed.value >= |options|)
  {
  }
}
