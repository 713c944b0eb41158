/** The records the player operations read, the "unset" sentinel, the
    first-match scan they all use, and the playback engine reduced to the
    log of calls made into it. */
module PlayerModel {
  import opened Optionals

  /** `RCTVideoUnset`: "no track selected". */
  const Unset: int := -1

  /** A sideloaded text track as the component knows it. */
  datatype TextTrack = TextTrack(language: Option<string>, title: Option<string>)

  /** `SelectedTrackCriteria`: a criterion type ("disabled", "language",
      "title", "index", "system", ...) and its value. */
  datatype SelectedTrackCriteria = SelectedTrackCriteria(kind: string, value: Option<string>)

  /** `criteria?.type`: absent when there is no criteria object. */
  function TypeOf(criteria: Option<SelectedTrackCriteria>): (r: Option<string>)
    ensures r.Some? <==> criteria.Some?
  {
    match criteria
    case None => None
    case Some(c) => Some(c.kind)
  }

  /** `criteria?.value`. */
  function ValueOf(criteria: Option<SelectedTrackCriteria>): (r: Option<string>)
    ensures r.Some? ==> criteria.Some?
  {
    match criteria
    case None => None
    case Some(c) => c.value
  }

  /** An option of a media-selection group: its extended language tag and
      the values of its common metadata items, each already cast to a
      string (`None` where the value is absent or not a string). */
  datatype MediaOption = MediaOption(extendedLanguageTag: Option<string>, commonMetadataValues: seq<Option<string>>)

  /** A time as the engine counts it: `value / timescale` seconds. */
  datatype CMTime = CMTime(value: int, timescale: int)

  /** A call the component makes into the playback engine. Options of a
      media-selection group are named by their position in the group. */
  datatype EngineCall =
    | Pause
    | Play
    | SeekTo(time: CMTime, toleranceBefore: CMTime, toleranceAfter: CMTime)
    | SelectMediaOption(option: Option<nat>)
    | SelectMediaOptionAutomatically

  /** The position of the first `x` in `s`, or `Unset` when there is none:
      the shape of every `for ... { if ... { index = i; break } }` scan in
      the player operations. */
  function FirstIndexOf<T(==)>(s: seq<T>, x: T): (r: int)
    ensures Unset <= r < |s|
    ensures r == Unset <==> x !in s
    ensures r != Unset ==> s[r] == x && x !in s[..r]
  {
    if |s| == 0 then Unset
    else if s[0] == x then 0
    else
      var k := FirstIndexOf(s[1..], x);
      assert s[1..][..k + 1] == s[1..k + 2] by { assert k != Unset ==> k + 2 <= |s|; }
      if k == Unset then Unset else k + 1
  }

  /** The first-match property determines the scan's result: a loop that
      stops at the first `x` (or runs out) computes `FirstIndexOf`. */
  lemma FirstIndexOfUnique<T>(s: seq<T>, x: T, k: int)
    requires k == Unset ==> x !in s
    requires k != Unset ==> 0 <= k < |s| && s[k] == x && x !in s[..k]
    ensures FirstIndexOf(s, x) == k
  {
    if k != Unset {
      assert forall j :: 0 <= j < k ==> s[j] != x by {
        forall j | 0 <= j < k ensures s[j] != x {
          assert s[j] == s[..k][j];
        }
      }
    }
  }

  /** The playback engine (`AVPlayer` and its current item), observed through
      the calls the component makes into it, in order. */
  class Player {
    var calls: seq<EngineCall>

    constructor ()
      ensures calls == []
    {
      calls := [];
    }

    /** `player.pause()` */
    method Pause()
      modifies this
      ensures calls == old(calls) + [EngineCall.Pause]
    {
      calls := calls + [EngineCall.Pause];
    }

    /** `player.seek(to:toleranceBefore:toleranceAfter:completionHandler:)` */
    method SeekTo(time: CMTime, toleranceBefore: CMTime, toleranceAfter: CMTime)
      modifies this
      ensures calls == old(calls) + [EngineCall.SeekTo(time, toleranceBefore, toleranceAfter)]
    {
      calls := calls + [EngineCall.SeekTo(time, toleranceBefore, toleranceAfter)];
    }

    /** `currentItem.select(option, in: group)`; `None` is `nil`. */
    method Select(option: Option<nat>)
      modifies this
      ensures calls == old(calls) + [EngineCall.SelectMediaOption(option)]
    {
      calls := calls + [EngineCall.SelectMediaOption(option)];
    }

    /** `currentItem.selectMediaOptionAutomatically(in: group)` */
    method SelectAutomatically()
      modifies this
      ensures calls == old(calls) + [EngineCall.SelectMediaOptionAutomatically]
    {
      calls := calls + [EngineCall.SelectMediaOptionAutomatically];
    }
  }
}
