/** `RCTPlayerOperations.seek`: skip a seek to the current time; otherwise
    pause a playing player, then seek once with the same tolerance before
    and after the target, and hand the engine's `finished` flag to the
    completion. Times are whole milliseconds, the source's timescale. */
module Seek {
  import opened Optionals
  import opened PlayerModel

  /** The timescale of the target and of the tolerance: milliseconds. */
  const TimeScale: int := 1000

  /** The engine calls `seek` makes, in order. */
  function SeekCalls(paused: bool, seekTime: int, seekTolerance: int, currentTime: int): seq<EngineCall>
  {
    if currentTime == seekTime then []
    else
      var tolerance := CMTime(seekTolerance, TimeScale);
      (if paused then [] else [Pause]) + [SeekTo(CMTime(seekTime, TimeScale), tolerance, tolerance)]
  }

  /** What the completion receives: `None` when it is never called. */
  function CompletionArgument(seekTime: int, currentTime: int, engineFinished: bool): Option<bool>
  {
    if currentTime == seekTime then None else Some(engineFinished)
  }

  /** `seek(player:playerItem:paused:seekTime:seekTolerance:completion:)`.
      `currentTime` is the item's current time, `engineFinished` the flag the
      engine passes to the seek's completion handler; the handler's call of
      `completion` is returned. */
  method Seek(player: Player, paused: bool, seekTime: int, seekTolerance: int, currentTime: int,
              engineFinished: bool)
    returns (completion: Option<bool>)
    modifies player
    ensures player.calls == old(player.calls) + SeekCalls(paused, seekTime, seekTolerance, currentTime)
    ensures completion == CompletionArgument(seekTime, currentTime, engineFinished)
  {
    var cmSeekTime := CMTime(seekTime, TimeScale);
    var tolerance := CMTime(seekTolerance, TimeScale);
    if currentTime == seekTime {
      return None;
    }
    if !paused {
      player.Pause();
    }
    player.SeekTo(cmSeekTime, tolerance, tolerance);
    completion := Some(engineFinished);
  }

  // ---------------------------------------------------------------------------
  // Properties

  /** A seek to the current time makes no call and never completes. */
  lemma SkippedSeekIsSilent(paused: bool, seekTime: int, seekTolerance: int, engineFinished: bool)
    ensures SeekCalls(paused, seekTime, seekTolerance, seekTime) == []
    ensures CompletionArgument(seekTime, seekTime, engineFinished) == None
  {
  }

  /** Otherwise: a pause exactly when the player was playing, then exactly
      one seek to the target with equal before and after tolerances of
      `seekTolerance` milliseconds; never a resume; the completion gets the
      engine's `finished` unchanged. */
  lemma SeekPausesThenSeeksOnce(paused: bool, seekTime: int, seekTolerance: int, currentTime: int,
                                engineFinished: bool)
    requires currentTime != seekTime
    ensures var calls := SeekCalls(paused, seekTime, seekTolerance, currentTime);
            var tolerance := CMTime(seekTolerance, 1000);
            |calls| == (if paused then 1 else 2) &&
            (Pause in calls <==> !paused) &&
            (!paused ==> calls[0] == Pause) &&
            calls[|calls| - 1] == SeekTo(CMTime(seekTime, 1000), tolerance, tolerance) &&
            (forall i :: 0 <= i < |calls| && calls[i].SeekTo? ==> i == |calls| - 1) &&
            Play !in calls
    ensures CompletionArgument(seekTime, currentTime, engineFinished) == Some(engineFinished)
  {
    var calls := SeekCalls(paused, seekTime, seekTolerance, currentTime);
    assert paused ==> calls == [calls[0]];
  }

  /** Seeking to 12.000 s at 12.000 s with a 50 ms tolerance is skipped. */
  lemma SameTimeScenario(paused: bool, engineFinished: bool)
    ensures SeekCalls(paused, 12000, 50, 12000) == []
    ensures CompletionArgument(12000, 12000, engineFinished) == None
  {
  }
}
