/**
 * The recording controls of the component: the `isRecording` and `isPaused`
 * flags, the `recordingTime` counter driven by a one-second interval, and the
 * interval handle kept in `recordingIntervalRef`.
 *
 * The browser's timer table is made explicit: `liveTimers` holds the handles
 * of the intervals that are scheduled and not yet cleared, and `nextHandle`
 * is the handle the next `setInterval` returns. Handles are positive, as the
 * browser's are, and `intervalRef == 0` stands for the ref's initial `null`.
 */
module Recording {

  class RecordingSession {
    var isRecording: bool
    var isPaused: bool
    var recordingTime: nat
    var intervalRef: nat
    var liveTimers: set<nat>
    var nextHandle: nat

    /** Exactly one interval is live while recording and unpaused, none otherwise. */
    predicate Valid()
      reads this
    {
      && (!isRecording ==> !isPaused)
      && liveTimers == (if isRecording && !isPaused then {intervalRef} else {})
      && 0 < nextHandle
      && intervalRef < nextHandle
      && (isRecording && !isPaused ==> intervalRef > 0)
    }

    /** The number of live intervals. */
    function LiveTimerCount(): (n: nat)
      reads this
      requires Valid()
      ensures n <= 1
      ensures n == 1 <==> isRecording && !isPaused
    {
      |liveTimers|
    }

    constructor ()
      ensures Valid()
      ensures !isRecording && !isPaused && recordingTime == 0
      ensures intervalRef == 0 && liveTimers == {}
    {
      isRecording := false;
      isPaused := false;
      recordingTime := 0;
      intervalRef := 0;
      liveTimers := {};
      nextHandle := 1;
    }

    /** `window.setInterval(...)`: schedule a fresh interval and keep its handle. */
    method SetInterval()
      requires 0 < nextHandle
      modifies this
      ensures intervalRef == old(nextHandle) && nextHandle == old(nextHandle) + 1
      ensures liveTimers == old(liveTimers) + {intervalRef}
      ensures isRecording == old(isRecording) && isPaused == old(isPaused)
      ensures recordingTime == old(recordingTime)
    {
      intervalRef := nextHandle;
      nextHandle := nextHandle + 1;
      liveTimers := liveTimers + {intervalRef};
    }

    /** Stop the interval whose handle the ref holds, when it holds one. */
    method ClearIntervalRef()
      requires 0 !in liveTimers
      modifies this
      ensures liveTimers == old(liveTimers) - {intervalRef}
      ensures intervalRef == old(intervalRef) && nextHandle == old(nextHandle)
      ensures isRecording == old(isRecording) && isPaused == old(isPaused)
      ensures recordingTime == old(recordingTime)
    {
      if intervalRef != 0 {
        liveTimers := liveTimers - {intervalRef};
      }
    }

    /**
     * `startRecording`, reachable only when not recording. With a working
     * recorder it sets both flags, zeroes the counter and starts one interval;
     * when the recorder cannot be set up nothing changes.
     */
    method Start(recorderReady: bool)
      requires Valid() && !isRecording
      modifies this
      ensures Valid()
      ensures recorderReady ==>
        && isRecording && !isPaused && recordingTime == 0
        && intervalRef == old(nextHandle) && liveTimers == {intervalRef}
      ensures !recorderReady ==> unchanged(this)
    {
      if !recorderReady {
        return;
      }
      isRecording := true;
      isPaused := false;
      recordingTime := 0;
      SetInterval();
    }

    /**
     * `handlePauseRecording`: nothing unless recording; otherwise flip the
     * pause flag, clearing the interval on pause and starting a fresh one on
     * resume.
     */
    method TogglePause()
      requires Valid()
      modifies this
      ensures Valid()
      ensures !old(isRecording) ==> unchanged(this)
      ensures old(isRecording) ==>
        && isRecording && isPaused == !old(isPaused)
        && recordingTime == old(recordingTime)
      ensures old(isRecording) && old(isPaused) ==>
        intervalRef == old(nextHandle) && liveTimers == {intervalRef}
      ensures old(isRecording) && !old(isPaused) ==>
        intervalRef == old(intervalRef) && liveTimers == {}
    {
      if isRecording {
        if isPaused {
          isPaused := false;
          SetInterval();
        } else {
          isPaused := true;
          ClearIntervalRef();
        }
      }
    }

    /**
     * `stopRecording`: nothing unless recording. When the recorder hands back
     * its audio, both flags are reset and the interval is cleared; the counter
     * and the stale handle stay. A failing recorder changes nothing.
     * `stopped` says whether the audio is now ready for upload.
     */
    method Stop(recorderStopped: bool) returns (stopped: bool)
      requires Valid()
      modifies this
      ensures Valid()
      ensures stopped == (old(isRecording) && recorderStopped)
      ensures !stopped ==> unchanged(this)
      ensures stopped ==>
        && !isRecording && !isPaused && liveTimers == {}
        && recordingTime == old(recordingTime) && intervalRef == old(intervalRef)
    {
      stopped := isRecording && recorderStopped;
      if !stopped {
        return;
      }
      isRecording := false;
      isPaused := false;
      ClearIntervalRef();
    }

    /** The interval with handle `h` fires: a live one adds a second, a cleared one never runs. */
    method Tick(h: nat)
      requires Valid()
      modifies this
      ensures Valid()
      ensures recordingTime == old(recordingTime) + (if h in old(liveTimers) then 1 else 0)
      ensures isRecording == old(isRecording) && isPaused == old(isPaused)
      ensures intervalRef == old(intervalRef) && liveTimers == old(liveTimers)
      ensures nextHandle == old(nextHandle)
    {
      if h in liveTimers {
        recordingTime := recordingTime + 1;
      }
    }
  }
}
