/** The microphone service (src/services/AudioService.ts): it normalises each
    metering level the recorder reports into 0..120 dB, keeps the last 100 values
    in a FIFO buffer and hands every value to the registered callback.

    The expo-av recorder is outside the model: whether permission is granted and
    whether unloading the recorder succeeds are boolean parameters, and the
    recorder's status reports arrive as calls of OnStatusUpdate. */
module Audio {
  import opened Numeric
  import opened Seqs
  import opened Types

  /** The fixed shift that maps the recorder's typical -160..0 range upwards. */
  const Shift: real := 120.0
  /** The top of the normalised scale. */
  const Ceiling: real := 120.0
  /** How many normalised values the metering buffer keeps. */
  const MeteringCapacity: nat := 100

  /** `Math.max(0, Math.min(120, db + 120))`. */
  function Normalize(raw: real): (db: real)
    ensures 0.0 <= db <= Ceiling
    ensures raw <= -Shift ==> db == 0.0
    ensures raw >= 0.0 ==> db == Ceiling
    ensures -Shift <= raw <= 0.0 ==> db == raw + Shift
  {
    Clamp(raw + Shift, 0.0, Ceiling)
  }

  /** A louder raw level never normalises to a quieter value. */
  lemma NormalizeMonotone(a: real, b: real)
    requires a <= b
    ensures Normalize(a) <= Normalize(b)
  {
    ClampMonotone(a + Shift, b + Shift, 0.0, Ceiling);
  }

  /** The part of a recorder status report the callback looks at. */
  datatype RecordingStatus = RecordingStatus(isRecording: bool, metering: Option<real>)

  /** What the screen's callback receives for one status report: the normalised level
      of a recording report that carries one, when a callback is registered. */
  function Delivered(status: RecordingStatus, hasCallback: bool): (d: Option<real>)
    ensures d.Some? <==> status.isRecording && status.metering.Some? && hasCallback
    ensures d.Some? ==> 0.0 <= d.value <= Ceiling
  {
    if status.isRecording && status.metering.Some? && hasCallback
    then Some(Normalize(status.metering.value))
    else None
  }

  class AudioService {
    /** `recording !== null`: a recorder has been created and not yet unloaded. */
    var hasRecorder: bool
    var isRecording: bool
    /** The buffer of recent normalised values, oldest first. */
    var metering: seq<real>
    /** `meteringCallback !== null`. */
    var hasCallback: bool
    /** Every normalised value pushed since the buffer was last emptied. */
    ghost var arrivals: seq<real>

    /** The buffer is the window of the last 100 arrivals, all on the 0..120 scale. */
    ghost predicate Valid()
      reads this
    {
      && metering == Last(arrivals, MeteringCapacity)
      && forall i :: 0 <= i < |arrivals| ==> 0.0 <= arrivals[i] <= Ceiling
    }

    constructor ()
      ensures Valid()
      ensures !hasRecorder && !isRecording && !hasCallback && metering == [] && arrivals == []
    {
      hasRecorder, isRecording, metering, hasCallback := false, false, [], false;
      arrivals := [];
    }

    /** startMonitoring: without permission it returns false before touching any field;
        with it, the callback and a recorder are installed and recording starts. The
        buffer is not cleared. */
    method StartMonitoring(permission: bool) returns (started: bool)
      requires Valid()
      modifies this
      ensures Valid()
      ensures started == permission
      ensures !permission ==> unchanged(this)
      ensures permission ==> hasCallback && hasRecorder && isRecording
      ensures metering == old(metering) && arrivals == old(arrivals)
    {
      if !permission {
        return false;
      }
      hasCallback := true;
      hasRecorder := true;
      isRecording := true;
      started := true;
    }

    /** The recorder's status callback. A report that is not recording or carries no
        metering level changes nothing. Otherwise the level is normalised, pushed onto
        the buffer (dropping the oldest once it holds more than 100) and, when a
        callback is registered, exactly that value is delivered to it. */
    method OnStatusUpdate(status: RecordingStatus) returns (delivered: Option<real>)
      requires Valid()
      modifies this
      ensures Valid()
      ensures !(status.isRecording && status.metering.Some?) ==> unchanged(this) && delivered == None
      ensures status.isRecording && status.metering.Some? ==>
        var db := Normalize(status.metering.value);
        && arrivals == old(arrivals) + [db]
        && metering == PushBounded(old(metering), db, MeteringCapacity)
      ensures delivered == Delivered(status, hasCallback)
      ensures |metering| <= MeteringCapacity
      ensures delivered.Some? ==> metering != [] && delivered.value == metering[|metering| - 1]
      ensures hasRecorder == old(hasRecorder) && isRecording == old(isRecording)
      ensures hasCallback == old(hasCallback)
    {
      delivered := None;
      if status.isRecording && status.metering.Some? {
        var db := Normalize(status.metering.value);
        LastPush(arrivals, db, MeteringCapacity);
        metering := metering + [db];
        if |metering| > MeteringCapacity {
          metering := metering[1..];
        }
        arrivals := arrivals + [db];
        if hasCallback {
          delivered := Some(db);
        }
      }
    }

    /** stopMonitoring: unloads the recorder, clears the recording flag, the callback
        and the buffer. If unloading the recorder fails, the error is caught before
        any of that and nothing changes. */
    method StopMonitoring(unloadOk: bool)
      requires Valid()
      modifies this
      ensures Valid()
      ensures old(hasRecorder) && !unloadOk ==> unchanged(this)
      ensures !old(hasRecorder) || unloadOk ==>
        !hasRecorder && !isRecording && !hasCallback && metering == [] && arrivals == []
    {
      if hasRecorder {
        if !unloadOk {
          return;
        }
        hasRecorder := false;
      }
      isRecording := false;
      hasCallback := false;
      metering := [];
      arrivals := [];
    }

    /** getMetering: a copy of the buffer (a value, so later changes to either side
        cannot reach the other), at most 100 values long. */
    method GetMetering() returns (copy: seq<real>)
      requires Valid()
      ensures copy == metering
      ensures |copy| <= MeteringCapacity
      ensures forall i :: 0 <= i < |copy| ==> 0.0 <= copy[i] <= Ceiling
    {
      copy := metering;
      assert forall i :: 0 <= i < |copy| ==> copy[i] == arrivals[|arrivals| - |copy| + i];
    }

    /** isMonitoring. */
    method IsMonitoring() returns (monitoring: bool)
      ensures monitoring == isRecording
    {
      monitoring := isRecording;
    }
  }
}
