/** The meter screen's session logic (src/screens/DosimeterScreen.tsx): each value the
    audio service delivers is calibrated, appended to the session's samples and
    summarised as current / min / max / average; a chart buffer keeps the last 50
    values; stopping a session that has samples saves a Reading; reset zeroes the
    meter; the view type cycles through four displays; and the alert test compares
    the current level with the user's threshold.

    React state is modelled as the fields of one screen object, and the values the
    screen reads from the clock are parameters. */
module Dosimeter {
  import opened Numeric
  import opened Seqs
  import opened Types
  import Audio
  import Storage

  /** How many values the chart keeps. */
  const ChartCapacity: nat := 50

  /** The four meter displays, in the order the toggle button visits them. */
  datatype ViewType = Circular | Radial | Wave | Bar

  const ViewOrder: seq<ViewType> := [Circular, Radial, Wave, Bar]

  /** `types.indexOf(viewType)`: the position of a view type in the toggle order. */
  function ViewIndex(v: ViewType): (i: nat)
    ensures i < |ViewOrder| && ViewOrder[i] == v
  {
    match v
    case Circular => 0
    case Radial => 1
    case Wave => 2
    case Bar => 3
  }

  /** `types[(currentIndex + 1) % types.length]`. */
  function NextView(v: ViewType): (w: ViewType)
    ensures ViewIndex(w) == (ViewIndex(v) + 1) % |ViewOrder|
    ensures w != v
  {
    ViewOrder[(ViewIndex(v) + 1) % |ViewOrder|]
  }

  /** The toggle visits circular, radial, wave, bar and back; four toggles return to
      where they started. */
  lemma ViewCycle(v: ViewType)
    ensures NextView(Circular) == Radial && NextView(Radial) == Wave
    ensures NextView(Wave) == Bar && NextView(Bar) == Circular
    ensures NextView(NextView(NextView(NextView(v)))) == v
  {
  }

  /** The read-out after a sample: the newest value as current, Math.min / Math.max over
      all session samples, the reduce-sum divided by the count, and a copy of all
      samples as history. */
  function Snapshot(samples: seq<real>): (m: MeterData)
    requires samples != []
    ensures m.current == samples[|samples| - 1] && m.history == samples
  {
    MeterData(samples[|samples| - 1], SeqMin(samples), SeqMax(samples), Mean(samples), samples)
  }

  /** After n >= 1 samples the read-out's min and max are the smallest and largest
      sample, the average is the sum over n, and min <= avg <= max. */
  lemma SnapshotStats(samples: seq<real>)
    requires samples != []
    ensures var m := Snapshot(samples);
      && m.min in samples && m.max in samples
      && (forall i :: 0 <= i < |samples| ==> m.min <= samples[i] <= m.max)
      && m.min <= m.avg <= m.max
  {
    SeqMinIsMinimum(samples);
    SeqMaxIsMaximum(samples);
    MeanBetweenMinMax(samples);
  }

  /** A single-sample session shows that sample as current, min, max and average. */
  lemma SingleSampleSnapshot(x: real)
    ensures Snapshot([x]) == MeterData(x, x, x, x, [x])
  {
    assert [x][..0] == [];
    assert Sum([x]) == x;
    assert Mean([x]) == x / 1.0 == x;
  }

  /** Recomputing over all samples agrees with a running update: the new minimum and
      maximum compare the old ones with the new sample, and the new average folds the
      sample into the old one. */
  lemma SnapshotIncremental(s: seq<real>, x: real)
    requires s != []
    ensures Snapshot(s + [x]).min == Min(Snapshot(s).min, x)
    ensures Snapshot(s + [x]).max == Max(Snapshot(s).max, x)
    ensures Snapshot(s + [x]).avg == (Snapshot(s).avg * (|s| as real) + x) / (|s| as real + 1.0)
  {
    assert (s + [x])[..|s|] == s;
  }

  /** A session that receives 40, 100 and 70 in turn reads, after each sample:
      40 everywhere; then current 100 with min 40, max 100 and average 70; then
      current 70 with min 40, max 100, average 70 and history [40, 100, 70]. */
  lemma SessionScenario()
    ensures Snapshot([40.0]) == MeterData(40.0, 40.0, 40.0, 40.0, [40.0])
    ensures Snapshot([40.0, 100.0]) == MeterData(100.0, 40.0, 100.0, 70.0, [40.0, 100.0])
    ensures Snapshot([40.0, 100.0, 70.0]) == MeterData(70.0, 40.0, 100.0, 70.0, [40.0, 100.0, 70.0])
  {
    SingleSampleSnapshot(40.0);
    SnapshotIncremental([40.0], 100.0);
    assert [40.0] + [100.0] == [40.0, 100.0];
    SnapshotIncremental([40.0, 100.0], 70.0);
    assert [40.0, 100.0] + [70.0] == [40.0, 100.0, 70.0];
  }

  /** The meter state before any sample and after a reset. */
  const ZeroMeter: MeterData := MeterData(0.0, 0.0, 0.0, 0.0, [])

  /** The reading `stopRecording` builds: stamped with the session start, lasting until
      `now`, with the meter's current / min / max / avg. */
  function SessionReading(id: string, start: int, now: int, m: MeterData): Reading
  {
    Reading(id, start, m.current, m.min, m.max, m.avg, now - start)
  }

  /** A saved session summarises its samples: it starts at the session start, lasts
      now - start, carries the last sample as its level and the minimum, average and
      maximum of all samples, in that order. */
  lemma SessionReadingSummarises(samples: seq<real>, id: string, start: int, now: int)
    requires samples != []
    ensures var r := SessionReading(id, start, now, Snapshot(samples));
      && r.timestamp == start && r.duration == now - start
      && r.decibels == samples[|samples| - 1]
      && r.min == SeqMin(samples) && r.max == SeqMax(samples)
      && r.min <= r.avg <= r.max
  {
    SnapshotStats(samples);
  }

  class DosimeterScreen {
    const audio: Audio.AudioService
    const store: Storage.StorageService
    var isRecording: bool
    var meter: MeterData
    var chart: seq<real>
    var viewType: ViewType
    /** startTimeRef.current */
    var startTime: int
    /** readingsRef.current: the calibrated samples of the current session. */
    var samples: seq<real>
    /** The calibration offset the session's callback was created with. */
    var offset: real
    /** Every calibrated sample since the screen was created or last reset. */
    ghost var charted: seq<real>

    /** The read-out summarises the session's samples once there are any. */
    ghost predicate MeterValid()
      reads this
    {
      samples != [] ==> meter == Snapshot(samples)
    }

    /** The chart is the window of the last 50 samples since the last reset. */
    ghost predicate ChartValid()
      reads this
    {
      chart == Last(charted, ChartCapacity)
    }

    ghost predicate Valid()
      reads this, audio
    {
      MeterValid() && ChartValid() && audio.Valid()
    }

    constructor (audio: Audio.AudioService, store: Storage.StorageService)
      requires audio.Valid()
      ensures Valid()
      ensures this.audio == audio && this.store == store
      ensures !isRecording && meter == ZeroMeter && chart == [] && charted == []
      ensures viewType == Circular && startTime == 0 && samples == []
    {
      this.audio := audio;
      this.store := store;
      isRecording := false;
      meter := ZeroMeter;
      chart := [];
      viewType := Circular;
      startTime := 0;
      samples := [];
      offset := 0.0;
      charted := [];
    }

    /** The alert effect's test: recording, alerts enabled and the current level at or
        above the threshold. Once the session has samples, "current" is its newest one. */
    predicate AlertFires(settings: Settings)
      reads this
      ensures AlertFires(settings) ==> isRecording && settings.enableAlerts
      ensures MeterValid() && samples != [] ==>
        (AlertFires(settings) <==>
          isRecording && settings.enableAlerts && samples[|samples| - 1] >= settings.alertThreshold)
    {
      isRecording && settings.enableAlerts && meter.current >= settings.alertThreshold
    }

    /** startRecording: asks the audio service to start with this screen's callback; on
        success the session begins at `now` with no samples and the current calibration
        offset. The read-out and the chart are left as they were. */
    method StartRecording(permission: bool, now: int, settings: Settings) returns (started: bool)
      requires Valid()
      modifies this, audio
      ensures Valid()
      ensures started == permission
      ensures started ==> isRecording && startTime == now && samples == []
      ensures started ==> offset == settings.calibrationOffset && audio.hasCallback && audio.isRecording
      ensures started ==> audio.hasRecorder && audio.metering == old(audio.metering)
      ensures !started ==> isRecording == old(isRecording) && startTime == old(startTime)
      ensures !started ==> samples == old(samples) && offset == old(offset) && unchanged(audio)
      ensures meter == old(meter) && chart == old(chart) && charted == old(charted)
      ensures viewType == old(viewType)
    {
      started := audio.StartMonitoring(permission);
      if started {
        isRecording := true;
        startTime := now;
        samples := [];
        offset := settings.calibrationOffset;
      }
    }

    /** The callback given to the audio service: the delivered level plus the offset is
        appended to the samples, the read-out is recomputed over all samples, and the
        chart takes the value, dropping its oldest once it holds more than 50. */
    method OnSample(db: real)
      requires ChartValid()
      modifies this
      ensures MeterValid() && ChartValid()
      ensures samples == old(samples) + [db + offset]
      ensures meter == Snapshot(samples) && meter.current == db + offset
      ensures chart == PushBounded(old(chart), db + offset, ChartCapacity)
      ensures charted == old(charted) + [db + offset]
      ensures isRecording == old(isRecording) && startTime == old(startTime)
      ensures offset == old(offset) && viewType == old(viewType)
    {
      var calibrated := db + offset;
      var newSamples := samples + [calibrated];
      LastPush(charted, calibrated, ChartCapacity);
      samples, meter := newSamples, Snapshot(newSamples);
      chart, charted := PushBounded(chart, calibrated, ChartCapacity), charted + [calibrated];
    }

    /** One recorder status report travelling through the audio service to the screen's
        callback. When a value is delivered, the new sample is the normalised level
        plus the offset and the alert then fires exactly when alerts are on, the
        screen is recording and that sample reaches the threshold. */
    method Tick(status: Audio.RecordingStatus, settings: Settings)
      requires Valid()
      modifies this, audio
      ensures Valid()
      ensures var d := Audio.Delivered(status, old(audio.hasCallback));
        && (d.Some? ==> samples == old(samples) + [d.value + offset])
        && (d.Some? ==> meter == Snapshot(samples) && charted == old(charted) + [d.value + offset])
        && (d.Some? ==> (AlertFires(settings) <==>
              isRecording && settings.enableAlerts && d.value + offset >= settings.alertThreshold))
        && (d.None? ==> samples == old(samples) && meter == old(meter) && chart == old(chart))
        && (d.None? ==> charted == old(charted))
      ensures |chart| <= ChartCapacity && |audio.metering| <= Audio.MeteringCapacity
      ensures audio.hasCallback == old(audio.hasCallback) && audio.hasRecorder == old(audio.hasRecorder)
      ensures audio.isRecording == old(audio.isRecording)
      ensures status.isRecording && status.metering.Some? ==>
        audio.metering == PushBounded(old(audio.metering), Audio.Normalize(status.metering.value),
                                      Audio.MeteringCapacity)
      ensures !(status.isRecording && status.metering.Some?) ==> audio.metering == old(audio.metering)
      ensures isRecording == old(isRecording) && startTime == old(startTime) && offset == old(offset)
      ensures viewType == old(viewType)
    {
      var delivered := audio.OnStatusUpdate(status);
      if delivered.Some? {
        OnSample(delivered.value);
      }
    }

    /** stopRecording: stops the audio service and the session; when the session has
        samples, a Reading summarising it goes to the log through saveReading as the
        source has it, so a failed read followed by a successful write leaves that
        reading alone in the log. */
    method StopRecording(now: int, id: string, unloadOk: bool, readOk: bool, writeOk: bool)
      requires Valid()
      modifies this, audio, store
      ensures Valid()
      ensures !isRecording
      ensures !old(audio.hasRecorder) || unloadOk ==>
        !audio.hasRecorder && !audio.isRecording && !audio.hasCallback && audio.metering == []
      ensures old(audio.hasRecorder) && !unloadOk ==> unchanged(audio)
      ensures old(samples) != [] && writeOk ==>
        store.Contents() == Storage.InsertCapped(Storage.Load(old(store.item), readOk),
                                                 SessionReading(id, old(startTime), now, old(meter)))
      ensures old(samples) == [] || !writeOk ==> store.item == old(store.item)
      ensures meter == old(meter) && samples == old(samples) && chart == old(chart)
      ensures charted == old(charted) && viewType == old(viewType) && startTime == old(startTime)
      ensures offset == old(offset)
    {
      audio.StopMonitoring(unloadOk);
      isRecording := false;
      if |samples| > 0 {
        var reading := SessionReading(id, startTime, now, meter);
        store.SaveReadingAsWritten(reading, readOk, writeOk);
      }
    }

    /** resetMeter: stops a running session first (saving it as stopRecording does), then
        zeroes the read-out and empties the chart and the samples. */
    method ResetMeter(now: int, id: string, unloadOk: bool, readOk: bool, writeOk: bool)
      requires Valid()
      modifies this, audio, store
      ensures Valid()
      ensures !isRecording
      ensures meter == ZeroMeter && chart == [] && samples == [] && charted == []
      ensures !old(isRecording) ==> store.item == old(store.item) && unchanged(audio)
      ensures old(isRecording) && (!old(audio.hasRecorder) || unloadOk) ==>
        !audio.hasRecorder && !audio.isRecording && !audio.hasCallback && audio.metering == []
      ensures old(isRecording) && old(audio.hasRecorder) && !unloadOk ==> unchanged(audio)
      ensures old(isRecording) && old(samples) != [] && writeOk ==>
        store.Contents() == Storage.InsertCapped(Storage.Load(old(store.item), readOk),
                                                 SessionReading(id, old(startTime), now, old(meter)))
      ensures old(samples) == [] || !writeOk ==> store.item == old(store.item)
      ensures viewType == old(viewType) && startTime == old(startTime) && offset == old(offset)
    {
      if isRecording {
        StopRecording(now, id, unloadOk, readOk, writeOk);
      }
      meter := ZeroMeter;
      chart := [];
      samples := [];
      charted := [];
    }

    /** toggleViewType: moves to the next of the four displays. */
    method ToggleViewType()
      modifies this
      ensures viewType == NextView(old(viewType))
      ensures isRecording == old(isRecording) && meter == old(meter) && chart == old(chart)
      ensures samples == old(samples) && charted == old(charted)
      ensures startTime == old(startTime) && offset == old(offset)
    {
      var currentIndex := ViewIndex(viewType);
      var nextIndex := (currentIndex + 1) % |ViewOrder|;
      viewType := ViewOrder[nextIndex];
    }
  }
}
