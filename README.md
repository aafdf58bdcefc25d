# Sound meter: a Dafny model of its sampling, statistics and storage

This project models the logic core of the React Native sound-meter app. It covers:

- **The microphone service** (`AudioService`). A recorder status report that says the
  recorder is recording and carries a metering level is normalised into the 0..120 dB
  scale; any other report is ignored. The value is pushed onto a FIFO buffer of at most
  100 values and handed to the callback, if one is registered.
- **The meter screen** (`DosimeterScreen`). Each delivered level gets the calibration
  offset added and is appended to the session's samples. The read-out (current, min,
  max, average, history) is recomputed over all samples. A chart buffer keeps the last
  50 values. Stopping a session that has samples saves a reading. Reset zeroes the
  meter. The view toggle cycles through four displays. The alert test compares the
  current level with the user's threshold.
- **The measurement log** (`StorageService`). It is a newest-first list of readings
  under one AsyncStorage key. It is capped at 1000 entries and supports insert,
  delete by id, clear, and an inclusive date-range query.
- **The display mappings**:
  - the history screen's "Mm Ss" duration text, colour bands, export guard and CSV text;
  - the bar meter's lit-bar count and bar colours;
  - the dial's clamp, percentage and angle, its 13 scale marks and the needle colour.

Layout, one module per file:

| file | module | models |
|---|---|---|
| numeric.dfy | `Numeric` | `Math.min`, `Math.max`, the clamp idiom, `Math.round`, JavaScript `%` |
| seqs.dfy | `Seqs` | `filter`, the push-then-shift bounded buffer, spread `Math.min` / `Math.max`, the summing `reduce`, splitting text on a separator |
| types.dfy | `Types` | `AudioReading`, `MeterData`, settings, and the three colour bands |
| storage.dfy | `Storage` | `StorageService` as a class whose field is the value under the key |
| audio.dfy | `Audio` | `AudioService` as a class over its recorder flag, recording flag, callback flag and metering buffer |
| dosimeter.dfy | `Dosimeter` | the meter screen's state as a class holding the two services |
| data_screen.dfy | `DataScreen` | formatDuration, getColorForDb, handleExport and the CSV loop of exportData |
| bar_meter.dfy | `BarMeter` | the 40-bar column |
| circular_meter.dfy | `CircularMeter` | the dial, including the `generateMarks` loop |

Modelling conventions:

- Decibel levels are `real` and timestamps and durations are integer milliseconds.
- Outcomes of calls into outside libraries are boolean parameters. These cover
  microphone permission, each AsyncStorage read, write or remove, and unloading the
  recorder.
- `Date.now()` and the reading id it is turned into are parameters.
- The date, time and `toFixed(1)` text of the CSV are the functions of a `Formats` value.

## Model

| member | source | states |
|---|---|---|
| Numeric.Min | src/components/BarMeter.tsx:18 | `Math.min` of two numbers is no greater than either and is one of them |
| Numeric.Max | src/components/BarMeter.tsx:18 | `Math.max` of two numbers is no smaller than either and is one of them |
| Numeric.Clamp | src/components/BarMeter.tsx:18 | `Math.max(lo, Math.min(hi, x))` lies in [lo, hi] when lo <= hi, is x inside the range, lo at or below it and hi above it; a reversed range gives lo |
| Numeric.ClampMonotone | src/components/CircularMeter.tsx:26 | clamping keeps the order of two inputs |
| Numeric.RoundHalfUp | src/components/BarMeter.tsx:20 | `Math.round` gives the integer n with n - 0.5 <= x < n + 0.5 (halves go up) |
| Numeric.RoundMonotone | src/components/BarMeter.tsx:20 | rounding keeps the order of two inputs |
| Numeric.JsRem | src/screens/DataScreen.tsx:140 | JavaScript `%` by a positive divisor: Dafny's remainder for a non-negative dividend, in (-b, 0] with the dividend's sign otherwise |
| Seqs.Filter | src/services/StorageService.ts:37 | `filter` keeps only elements passing the test, and every passing element is kept |
| Seqs.FilterAppend | src/services/StorageService.ts:55-57 | filtering a concatenation is the concatenation of the filtered halves, so relative order is kept |
| Seqs.FilterKeepsAll | src/services/StorageService.ts:37 | a filter every element passes returns the list unchanged |
| Seqs.PushBounded | src/services/AudioService.ts:71-74 | a push followed by one shift past the capacity leaves at most cap values, the pushed one last, equal to the last cap values of the longer list |
| Seqs.LastPush | src/screens/DosimeterScreen.tsx:81-87 | pushing onto the window of the last n values gives the window of the extended stream: the buffer always holds the newest n arrivals, oldest first |
| Seqs.SeqMin | src/screens/DosimeterScreen.tsx:67 | `Math.min(...samples)` folded from the left; no contract of its own, its meaning is stated by Seqs.SeqMinIsMinimum |
| Seqs.SeqMax | src/screens/DosimeterScreen.tsx:68 | `Math.max(...samples)` folded from the left; no contract of its own, its meaning is stated by Seqs.SeqMaxIsMaximum |
| Seqs.Sum | src/screens/DosimeterScreen.tsx:69 | the `reduce((a, b) => a + b, 0)` sum; no contract of its own, bounded by Seqs.SumBounds |
| Seqs.Mean | src/screens/DosimeterScreen.tsx:69-70 | the sum over the count; no contract of its own, placed between minimum and maximum by Seqs.MeanBetweenMinMax |
| Seqs.SeqMinIsMinimum | src/screens/DosimeterScreen.tsx:67 | the spread `Math.min` is an element of the samples and no greater than any of them |
| Seqs.SeqMaxIsMaximum | src/screens/DosimeterScreen.tsx:68 | the spread `Math.max` is an element of the samples and no smaller than any of them |
| Seqs.SumBounds | src/screens/DosimeterScreen.tsx:69-70 | the reduce-sum of n samples lies between n times their minimum and n times their maximum |
| Seqs.MeanBetweenMinMax | src/screens/DosimeterScreen.tsx:69-70 | min <= sum / n <= max |
| Types.DbColour | src/screens/DataScreen.tsx:148-152 | accent exactly below 60 dB, orange exactly in [60, 85), primary exactly from 85; the three bands partition all levels |
| Types.DbColourMonotone | src/screens/DataScreen.tsx:148-152 | a louder level is never drawn in a quieter band |
| Storage.Load | src/services/StorageService.ts:24-32 | a successful read of a present key yields the stored list; an absent key or a failed read yields [] |
| Storage.InsertCapped | src/services/StorageService.ts:10-16 | after unshift and splice the new reading is first, the length is min(old + 1, 1000), and the rest is the old list's prefix (only the oldest are evicted) |
| Storage.WithoutId | src/services/StorageService.ts:37 | exactly the readings whose id differs remain, none longer than before |
| Storage.InDateRange | src/services/StorageService.ts:55-57 | exactly the readings with start <= timestamp <= end remain; an inverted range gives [] |
| Storage.DeleteAbsentIdKeepsAll | src/services/StorageService.ts:36-38 | deleting an id no reading carries leaves the list unchanged |
| Storage.DeleteKeepsOrder | src/services/StorageService.ts:37 | deletion keeps the survivors in stored order |
| Storage.RangeKeepsOrder | src/services/StorageService.ts:55-57 | the range query keeps the stored newest-first order |
| Storage.SaveAllKeepsNewest | src/services/StorageService.ts:5-16 | after any series of saves the log is the newest 1000 of all readings saved, newest first |
| Storage.FailedReadSaveDropsHistory | src/services/StorageService.ts:8-32 | as written, a save after a failed read leaves only the new reading, unlike a save on the real contents |
| Storage.FailedReadDeleteDropsHistory | src/services/StorageService.ts:24-42 | as written, a delete after a failed read empties the log even when other readings were stored |
| Storage.StorageService.constructor | src/services/StorageService.ts:65 | the service starts over whatever the key holds |
| Storage.StorageService.GetReadings | src/services/StorageService.ts:24-32 | the stored list on a successful read, [] on an absent key or a failed read |
| Storage.StorageService.ReadChecked | src/services/StorageService.ts:24-32 | the read with its failure reported as None instead of swallowed |
| Storage.StorageService.SaveReading | src/services/StorageService.ts:8-22 | with read and write succeeding the log becomes InsertCapped of the old log; any failure leaves the key untouched; the cap is kept |
| Storage.StorageService.SaveReadingAsWritten | src/services/StorageService.ts:8-22 | a successful write stores InsertCapped of whatever the read yielded, [] after a failed read; a failed write changes nothing |
| Storage.StorageService.DeleteReading | src/services/StorageService.ts:34-42 | with read and write succeeding exactly the readings with another id stay, in order; any failure leaves the key untouched |
| Storage.StorageService.DeleteReadingAsWritten | src/services/StorageService.ts:34-42 | a successful write stores the filtered read result, [] after a failed read; a failed write changes nothing |
| Storage.StorageService.ClearAllReadings | src/services/StorageService.ts:44-50 | a successful remove makes the key absent and the log read as []; a failed one changes nothing |
| Storage.StorageService.GetReadingsByDateRange | src/services/StorageService.ts:52-62 | the readings stamped within [start, end] in stored order, [] on a failed read or an inverted range; nothing is written |
| Audio.Normalize | src/services/AudioService.ts:69 | the normalised level lies in [0, 120]; raw <= -120 gives 0, raw >= 0 gives 120, in between raw + 120 |
| Audio.NormalizeMonotone | src/services/AudioService.ts:69 | normalising keeps the order of two raw levels |
| Audio.Delivered | src/services/AudioService.ts:62-78 | the callback gets a value exactly for a recording report that carries a level while a callback is set, and that value is in [0, 120] |
| Audio.AudioService.constructor | src/services/AudioService.ts:3-7 | no recorder, not recording, no callback, empty buffer |
| Audio.AudioService.StartMonitoring | src/services/AudioService.ts:19-24 | returns the permission; without it nothing changes; with it the callback and recorder are installed and recording starts, buffer kept |
| Audio.AudioService.OnStatusUpdate | src/services/AudioService.ts:61-80 | a non-recording or level-less report changes nothing; otherwise the normalised level is pushed into the buffer, which stays the last 100 arrivals in order, and the callback receives exactly the value just appended |
| Audio.AudioService.StopMonitoring | src/services/AudioService.ts:95-107 | afterwards no recorder, not recording, no callback and an empty buffer; a failed unload is caught before any of that and changes nothing |
| Audio.AudioService.GetMetering | src/services/AudioService.ts:109-111 | returns a value copy equal to the buffer, at most 100 values, each in [0, 120] |
| Audio.AudioService.IsMonitoring | src/services/AudioService.ts:113-115 | returns the recording flag |
| Dosimeter.ViewIndex | src/screens/DosimeterScreen.tsx:152-153 | `indexOf` finds the view type at its position in the four-entry list |
| Dosimeter.NextView | src/screens/DosimeterScreen.tsx:152-155 | the next view is at index (i + 1) % 4 and differs from the current one |
| Dosimeter.ViewCycle | src/screens/DosimeterScreen.tsx:152-155 | circular, radial, wave, bar, circular; four toggles return to the start |
| Dosimeter.Snapshot | src/screens/DosimeterScreen.tsx:64-78 | the read-out's current value is the newest sample and its history is all samples in arrival order |
| Dosimeter.SnapshotStats | src/screens/DosimeterScreen.tsx:67-70 | min and max are the smallest and largest sample and min <= avg <= max |
| Dosimeter.SingleSampleSnapshot | src/screens/DosimeterScreen.tsx:67-78 | with one sample, current = min = max = avg = that sample |
| Dosimeter.SnapshotIncremental | src/screens/DosimeterScreen.tsx:67-70 | recomputing over all samples equals a running update of min, max and average |
| Dosimeter.SessionScenario | src/screens/DosimeterScreen.tsx:64-78 | samples 40, 100, 70 in turn read 40/40/40/40, then current 100 with min 40, max 100, avg 70, then current 70 with min 40, max 100, avg 70 and history [40, 100, 70] |
| Dosimeter.SessionReading | src/screens/DosimeterScreen.tsx:113-121 | the reading stopRecording builds from the id, the session start, now and the read-out; no contract of its own, stated by Dosimeter.SessionReadingSummarises |
| Dosimeter.SessionReadingSummarises | src/screens/DosimeterScreen.tsx:113-121 | the saved reading starts at the session start, lasts now - start, carries the last sample and the session's min and max, with min <= avg <= max |
| Dosimeter.DosimeterScreen.constructor | src/screens/DosimeterScreen.tsx:29-40 | initial state: not recording, zero read-out, empty chart and samples, circular view |
| Dosimeter.DosimeterScreen.AlertFires | src/screens/DosimeterScreen.tsx:51 | the alert test holds exactly when recording, alerts are on and the newest sample reaches the threshold |
| Dosimeter.DosimeterScreen.StartRecording | src/screens/DosimeterScreen.tsx:58-101 | on success the session starts at now with no samples and the current offset, and the audio service records with callback and recorder installed and its buffer kept; without permission nothing changes |
| Dosimeter.DosimeterScreen.OnSample | src/screens/DosimeterScreen.tsx:63-88 | the sample is db + offset appended to the samples; the read-out summarises all samples; the chart is the last 50 values since reset |
| Dosimeter.DosimeterScreen.Tick | src/screens/DosimeterScreen.tsx:50-88 | a delivered level adds normalised level + offset as a sample, the read-out summarises all samples, the chart stream gains that sample, and the alert then fires exactly when recording, alerts are on and that sample reaches the threshold; with no delivery the samples, read-out and chart are unchanged; recording flag, start, offset and view are kept; the audio service keeps its callback, recorder and recording flag, and its buffer gains the normalised level (dropping the oldest past 100) exactly when the report is recording with a level |
| Dosimeter.DosimeterScreen.StopRecording | src/screens/DosimeterScreen.tsx:103-125 | recording stops; the audio service is left without recorder, callback or buffer unless its unload failed, in which case it is untouched; when the session has samples and the write succeeds, the log becomes the reading (start, now - start, the read-out's values) inserted before whatever the read yielded, so a failed read leaves it alone in the log; otherwise the key is untouched; read-out, samples, chart, view, start and offset are kept |
| Dosimeter.DosimeterScreen.ResetMeter | src/screens/DosimeterScreen.tsx:127-145 | a running session is stopped and saved exactly as stopRecording does (same audio and log outcomes); an idle screen touches neither the audio service nor the log; then the read-out is zeroed and chart and samples emptied, with view, start and offset kept |
| Dosimeter.DosimeterScreen.ToggleViewType | src/screens/DosimeterScreen.tsx:147-156 | moves to the next of the four views; recording flag, read-out, chart, samples, start and offset are kept |
| DataScreen.SplitDuration | src/screens/DataScreen.tsx:137-140 | seconds = floor(ms / 1000), minutes = floor(seconds / 60); for ms >= 0 the remainder is in [0, 59] and minutes * 60 + remainder = seconds |
| DataScreen.ShowInt | src/screens/DataScreen.tsx:143-145 | a template literal renders an integer as digits with a leading '-' when negative |
| DataScreen.ShowNatRoundTrip | src/screens/DataScreen.tsx:143-145 | the decimal text of n reads back as n |
| DataScreen.FormatDuration | src/screens/DataScreen.tsx:137-146 | the text ends in 's' |
| DataScreen.FormatDurationShape | src/screens/DataScreen.tsx:142-145 | the text has a minutes part ('m' and a space) exactly when minutes > 0 |
| DataScreen.ParseSeconds | src/screens/DataScreen.tsx:145 | "Ss" reads back as S seconds |
| DataScreen.ParseMinutesSeconds | src/screens/DataScreen.tsx:143 | "Mm Ss" reads back as 60 * M + S seconds |
| DataScreen.FormatDurationRoundTrip | src/screens/DataScreen.tsx:137-146 | for ms >= 0 the text reads back as exactly floor(ms / 1000) seconds |
| DataScreen.ExportStepFor | src/screens/DataScreen.tsx:69-92 | no readings is refused; with an ad loaded the ad is offered; otherwise export runs at once |
| DataScreen.HandleExport | src/screens/DataScreen.tsx:69-92 | a CSV is built exactly when there are readings and no ad is offered, and it is the export's CSV |
| DataScreen.HeaderLine | src/screens/DataScreen.tsx:99 | the column titles joined by commas; no contract of its own, stated by DataScreen.HeaderColumns and DataScreen.HeaderOneLine |
| DataScreen.RowLine | src/screens/DataScreen.tsx:102-109 | a reading's seven fields joined by commas; no contract of its own, split back by DataScreen.SplitJoin within DataScreen.CsvLayout |
| DataScreen.Csv | src/screens/DataScreen.tsx:99-110 | the header line and one line per reading, each followed by a newline; no contract of its own, stated by DataScreen.CsvLayout and built by DataScreen.ExportData |
| DataScreen.RowFields | src/screens/DataScreen.tsx:101-109 | each reading renders to as many fields as the header has |
| DataScreen.RowLines | src/screens/DataScreen.tsx:101-110 | one row line per reading, in list order |
| DataScreen.ExportData | src/screens/DataScreen.tsx:94-110 | the loop builds the header line followed by one terminated row line per reading |
| DataScreen.SplitJoin | src/screens/DataScreen.tsx:107-109 | splitting comma-joined separator-free fields gives the fields back |
| DataScreen.HeaderColumns | src/screens/DataScreen.tsx:99 | the header splits into its 7 column titles |
| DataScreen.HeaderOneLine | src/screens/DataScreen.tsx:99 | the header line holds no newline |
| DataScreen.CsvLayout | src/screens/DataScreen.tsx:99-110 | with clean fields, the CSV splits into the header, one line per reading in order, each splitting into its 7 fields, and a final empty piece |
| BarMeter.NormalizedValue | src/components/BarMeter.tsx:18 | the normalised value lies in [0, max] and is the value itself inside that range |
| BarMeter.ActiveBars | src/components/BarMeter.tsx:18-20 | `Math.round(40 * normalizedValue / max)`, 0 for max <= 0; no contract of its own, stated by BarMeter.ActiveBarsRange and BarMeter.ActiveBarsMonotone |
| BarMeter.IsActive | src/components/BarMeter.tsx:32-33 | `reverseIndex < activeBars`; no contract of its own, stated by BarMeter.RenderLightsBottom |
| BarMeter.ActiveBarsRange | src/components/BarMeter.tsx:17-20 | between 0 and 40 bars are lit; a value at or above a positive max lights all 40; a value <= 0 or a max <= 0 lights none |
| BarMeter.ActiveBarsMonotone | src/components/BarMeter.tsx:18-20 | a louder value never lights fewer bars |
| BarMeter.BarColour | src/components/BarMeter.tsx:22-27 | positions 0-18 accent, 19-26 orange, 27 upwards primary, each exactly |
| BarMeter.Render | src/components/BarMeter.tsx:31-48 | the column has 40 bars |
| BarMeter.RenderLightsBottom | src/components/BarMeter.tsx:31-44 | render index i is lit exactly when i >= 40 - activeBars, lit bars have their position's colour, and exactly activeBars bars are lit |
| BarMeter.MeterLitCount | src/components/BarMeter.tsx:17-33 | the rendered meter lights exactly ActiveBars(value, max) bars |
| CircularMeter.Normalized | src/components/CircularMeter.tsx:26 | the clamped value lies in [min, max] and is the value itself inside the range |
| CircularMeter.Percentage | src/components/CircularMeter.tsx:27 | `(normalizedValue - min) / (max - min)`; no contract of its own, stated by CircularMeter.AngleRange |
| CircularMeter.Angle | src/components/CircularMeter.tsx:28 | `-120 + percentage * 240`; no contract of its own, stated by CircularMeter.AngleRange and CircularMeter.AngleMonotone |
| CircularMeter.AngleRange | src/components/CircularMeter.tsx:26-28 | percentage in [0, 1], angle in [-120, 120]; -120 at or below min, +120 at or above max; a reversed range keeps the needle at -120 |
| CircularMeter.AngleMonotone | src/components/CircularMeter.tsx:26-28 | a larger value never moves the needle back |
| CircularMeter.NeedleColour | src/components/CircularMeter.tsx:88-92 | the needle uses the 60 / 85 dB bands on the clamped value |
| CircularMeter.GenerateMarks | src/components/CircularMeter.tsx:36-85 | the loop pushes, for each of the 13 marks in order, its tick and, for a main mark, its label |
| CircularMeter.TicksLayout | src/components/CircularMeter.tsx:40-61 | n iterations draw n ticks, the i-th being mark i's |
| CircularMeter.LabelsCount | src/components/CircularMeter.tsx:63-81 | n iterations draw one label per multiple of 3 below n |
| CircularMeter.LabelsLayout | src/components/CircularMeter.tsx:63-81 | the k-th label is that of mark 3k |
| CircularMeter.DialMarks | src/components/CircularMeter.tsx:38-66 | 13 ticks and 5 labels at marks 0, 3, 6, 9, 12; the first mark at min and -120 degrees, the last at max and +120 |
| CircularMeter.DefaultLabels | src/components/CircularMeter.tsx:42-66 | with the default range 0..120 the labels read 0, 30, 60, 90, 120 |
| CircularMeter.MarkAngle | src/components/CircularMeter.tsx:41 | mark i's angle on the arc; no contract of its own, stated by CircularMeter.DialMarks and CircularMeter.MarkOnNeedleScale |
| CircularMeter.MarkValue | src/components/CircularMeter.tsx:42 | mark i's value; no contract of its own, stated by CircularMeter.MarkValueIncreasing and CircularMeter.DefaultLabels |
| CircularMeter.IsMainMark | src/components/CircularMeter.tsx:43 | `i % 3 === 0`; no contract of its own, stated by CircularMeter.LabelsCount and CircularMeter.LabelsLayout |
| CircularMeter.MarkValueIncreasing | src/components/CircularMeter.tsx:42 | mark values strictly increase with the index |
| CircularMeter.MarkOnNeedleScale | src/components/CircularMeter.tsx:26-42 | each mark sits where the needle points for the mark's value |

## Left out

- expo-av permission requests, audio mode, recorder preparation, starting, and the progress interval are foreign calls. Permission and unloading are boolean inputs. Other set-up calls are not modelled.
- Audio.AudioService.StartMonitoring: a recorder set-up call that fails after permission is granted is not modelled. The source then returns false with the callback and recorder already installed.
- AsyncStorage and `JSON.stringify` / `JSON.parse` are an in-memory value with a success flag per call. Serialisation is taken to round-trip.
- The async read-modify-write races between concurrent saves and deletes are not modelled. Nor is the order in which an early status report can reach the callback before `startRecording` clears the samples.
- React state and effect mechanics are not modelled: setState batching, stale closures, and the unmount clean-up, which captures the initial `isRecording` and never fires.
- `stopRecording` reads the meter read-out from its render closure; the model uses the current read-out.
- Dosimeter.DosimeterScreen.OnSample: the calibration offset is the one current when the session started, because the callback closes over the settings of that render. A later change of settings does not reach a running session.
- `Date.now()` is a parameter. The model makes no claim that reading ids are unique; the source does not guarantee it.
- Locale date and time text and `toFixed(1)` are left out. These are the opaque functions of `Formats`.
- DataScreen.CsvLayout: stated for fields free of commas and newlines. A locale whose date text contains a comma would give more than 7 columns in the source.
- DataScreen.HeaderColumns: the titles are written as a list whose comma-join is the header text on line 99. The equality with that literal string is not proved.
- DataScreen.FormatDurationRoundTrip: stated for non-negative durations. For a negative one, formatDuration renders a negative remainder ("-5s"), which the parser does not read.
- The export's success alert, the rewarded-ad flow after the offer, and the exporting flag are not modelled. The ad's reward calls the same export.
- Needle and mark coordinates (cos / sin) are not modelled, nor are the radial meter, waveform, line chart, theme, haptics, alerts, ads and navigation.
- `simulateReading` uses `Math.random` and is not modelled.
- CircularMeter.Percentage: requires min != max, because the source computes 0 / 0 (NaN) there.
- CircularMeter.MarkOnNeedleScale: stated for min < max. With a reversed range the needle is pinned at -120 while the marks still spread over the arc.
- Numbers are unbounded reals and integers. IEEE double rounding, NaN and infinities are not modelled, apart from the divisions by zero named above.

## Findings

| source | as written | input that shows it | evidently intended | confidence | as-written member | corrected member |
|---|---|---|---|---|---|---|
| src/services/StorageService.ts:8-32 | `getReadings` catches a read failure and returns []; `saveReading` then writes `[reading]` over the key | a stored log of 500 readings, `getItem` throws once during `saveReading(r)`: the log becomes `[r]` | a failed read should abort the save and keep the stored log | not executed | Storage.StorageService.SaveReadingAsWritten, Storage.FailedReadSaveDropsHistory | Storage.StorageService.SaveReading |
| src/services/StorageService.ts:24-42 | `deleteReading` filters the [] that a failed read yields and writes it back | a stored log holding readings with ids "a" and "b", `getItem` throws during `deleteReading("a")`: the log becomes [] and "b" is lost | a failed read should abort the delete and keep the stored log | not executed | Storage.StorageService.DeleteReadingAsWritten, Storage.FailedReadDeleteDropsHistory | Storage.StorageService.DeleteReading |

The screen's stopRecording calls saveReading as the source does, so
Dosimeter.DosimeterScreen.StopRecording and ResetMeter are stated over
Storage.StorageService.SaveReadingAsWritten: a failed read during the save leaves
the session's reading alone in the log.
