# analyzer-reporter, modelled in Dafny

analyzer-reporter turns logic-analyzer captures into PDF reports on a USB
drive. This project models three parts of it.

- **Signal processor.** It takes a capture of several 0/1 channels sampled
  at regular instants. For each channel it:
  - removes glitches with a median filter;
  - finds the edges with a first difference;
  - decides whether the capture window opened in the middle of a pulse;
  - pairs the edges into pulse records (start, end, width);
  - classifies the channel as rising (pulses go high) or falling.
- **Grapher.** The part that decides which channels get their pulse widths
  annotated, and that holds the vertical marker lines. Drawing is not
  modelled.
- **Storage controller.** It tracks:
  - whether the USB drive is plugged in and mounted, and where;
  - which PDF report on the drive is the last one;
  - the name of the next report, `<date>-<index zero-filled to 3>.pdf`;
  - whether there are more than 100000 bytes free.

Modules, one per file:

- `signal_processor.dfy` (`SignalProcessing`): the engine.
  - Specification functions: `FilterNoise`, `FindPulsePivots`,
    `StartsFromPulse`, `PulsePointsWidth` and `IsRisingSignal`.
  - The column loop of `_calculate_pulse_metrics` is a method with a
    `while` loop.
  - `SignalProcessor` is a class whose fields are fixed at construction.
- `median_filter.dfy` (`MedianFilter`): `scipy.signal.medfilt` on 0/1
  columns with zero padding, and what it does to constant columns.
- `array_ops.dfy` (`ArrayOps`): `np.diff`, `np.sum`, `nonzero`/`where`, and
  the slices `[::2]` and `[1::2]`.
- `signal_grapher.dfy` (`Grapher`): the channel selection and the
  `SignalGrapher` class. Its only mutable field is `vlines`.
- `storage_controller.dfy` (`Storage`): the controller.
  - `StorageController` is a class with one field per attribute of the
    Python object.
  - Each Python method is a Dafny method that modifies only what it
    assigns.
  - `Update` is proved equal to the specification function `Refresh`.
- `text.dfy` (`Text`): the parts of Python's string behaviour the
  controller relies on: `str.split()`, `split(sep)` and `join`, `in`,
  `lower`, `endswith`, code-point order with `sorted()[-1]`, `int()`,
  `zfill` and `os.path.join`.
- `wrappers.dfy` (`Wrappers`): `Option` and `Result`.

Exceptions the code can raise are modelled as error results:
- `np.split(points, 0)` raises `ZeroDivisionError` when a channel has too
  few edges, because numpy computes `len(points) % 0` before it checks the
  number of sections;
- `[0]` of an empty index array raises `IndexError`;
- `split()[1]` on a short mount line raises `IndexError`;
- `split("-")[3]` on a short report name raises `IndexError`;
- `int()` on a non-number raises `ValueError`.

An exception in `update` leaves the fields that were assigned before it.
The model keeps that partial state.

In three places the names in the code suggest one behaviour and the code
does another. The model follows the code:
- **A channel that starts inside a pulse.** The name `_is_start_from_pulse`
  suggests that, when it holds, the first edge only ends a pulse already in
  progress and would be skipped. The code does the opposite: it pairs the
  edges from the first edge on, with gap positions 0, 2, 4 …, and skips the
  first edge only when the flag is false (signal_processor.py:79-82).
- **A channel with fewer than three edges.** `_calculate_pulse_metrics`
  suggests such a channel simply counts zero pulses. The code raises
  instead: the candidate list has no complete pair, and
  `np.split(points, 0)` divides by zero (signal_processor.py:84-88,
  `SignalProcessing.PulseRecordsPairConsecutiveEdges`).
- **A filter window longer than the column.** This is not an error:
  `medfilt` zero-pads. A column of ones no longer than half the window
  filters to zeros (`MedianFilter.ShortHighColumnDropped`); a longer one
  passes unchanged (`MedianFilter.ConstantHighUnchanged`).

## Model

| member | source | states |
|---|---|---|
| SignalProcessing.FilterNoise | signal_processor.py:40-42 | column i of the result is the median filter of column i, with its name and length, and 0/1 |
| MedianFilter.MedFilt | signal_processor.py:42 | `medfilt` on one 0/1 column with an odd window: as long as the column and 0/1 again; each sample is 1 iff more than half its zero-padded window is 1 (its meaning as a median is `MedFiltIsMedian`) |
| MedianFilter.MedFiltIsMedian | signal_processor.py:42 | each filtered sample is a median of the zero-padded window of `wsize` samples centred on it |
| MedianFilter.MedianIsUnique | signal_processor.py:42 | on an odd 0/1 window the median is 1 exactly when more than half the window is 1 |
| MedianFilter.ConstantLowUnchanged | signal_processor.py:42 | an all-zero column is left unchanged |
| MedianFilter.ConstantHighUnchanged | signal_processor.py:42 | an all-one column longer than half the window is left unchanged |
| MedianFilter.ShortHighColumnDropped | signal_processor.py:42 | an all-one column no longer than half the window filters to all zeros: the zero padding outvotes it |
| SignalProcessing.FindPulsePivots | signal_processor.py:44-46 | names kept; each column has one entry fewer (none for an empty one), and entry t is x[t+1] − x[t] |
| ArrayOps.Diff | signal_processor.py:46 | `np.diff`: one entry fewer (none for an empty input), and entry t is s[t+1] − s[t] |
| ArrayOps.Sum | signal_processor.py:72 | `np.sum`: 0 for an empty list, otherwise the sum of the entries; the sums the code compares are stated by `TotalWidthIsSmallerGapSum` |
| ArrayOps.Where | signal_processor.py:70 | the listed positions are in range, satisfy the test and strictly increase |
| ArrayOps.WhereComplete | signal_processor.py:70 | every position that satisfies the test is listed |
| ArrayOps.WhereHasNoGaps | signal_processor.py:70 | no position between two consecutive listed ones satisfies the test |
| ArrayOps.EveryOther | signal_processor.py:72 | `s[::2]`: ⌈n/2⌉ entries, entry k is s[2k] |
| ArrayOps.OddPositions | signal_processor.py:72 | `s[1::2]`: ⌊n/2⌋ entries, entry k is s[2k+1] |
| SignalProcessing.StartsFromPulse | signal_processor.py:67-72 | `_is_start_from_pulse`: the gaps between consecutive edges at even positions sum to less than those at odd positions; `FewEdgesStartIdle` and `TotalWidthIsSmallerGapSum` state its consequences |
| SignalProcessing.Segment | signal_processor.py:76-93 | the segmentation once the edges and the flag are known: candidates from the first or second edge, the matching gap stride as widths, an odd list trimmed, and the `np.split` error when no pair is left; `SegmentPairsCandidates` states it |
| SignalProcessing.PulsePointsWidth | signal_processor.py:74-93 | `_signal_pulse_points_width`: `Segment` of the edge positions with the `_is_start_from_pulse` flag; `PulseRecordsPairConsecutiveEdges` and `PulseRecordsOrdered` state it |
| SignalProcessing.IsRisingSignal | signal_processor.py:95-104 | `_is_rising_signal`: `IndexError` when there is no edge or no +1 step, otherwise whether the first edge is the first +1 step, inverted when the flag is false; `IsRisingSignalMeaning` states it |
| SignalProcessing.FewEdgesStartIdle | signal_processor.py:67-72 | a channel with at most two edges never counts as started from a pulse |
| SignalProcessing.SegmentPairsCandidates | signal_processor.py:79-93 | segmentation succeeds exactly when there are at least two candidate points; record k then pairs candidates 2k and 2k+1, and its width is their distance |
| SignalProcessing.PulseRecordsPairConsecutiveEdges | signal_processor.py:74-93 | the records exist exactly when the channel has at least 3 edges; then record k runs from edge f+2k to edge f+2k+1, with f = 0 when the channel started from a pulse and 1 otherwise, and there are ⌊(m−f)/2⌋ records for m edges |
| SignalProcessing.PairedRecordsOrdered | signal_processor.py:88-93 | records that pair increasing edge positions start before they end and are disjoint, in time order |
| SignalProcessing.PulseRecordsOrdered | signal_processor.py:74-93 | every record has 0 ≤ start < end and width = end − start; record k ends before record k+1 starts |
| SignalProcessing.PairedWidthsAreGaps | signal_processor.py:78-82 | the widths are `differences[::2]` from the first edge and `differences[1::2]` from the second |
| SignalProcessing.TotalWidthIsSmallerGapSum | signal_processor.py:67-93 | the widths add up to the smaller of the even-position and odd-position gap sums |
| SignalProcessing.IsRisingSignalMeaning | signal_processor.py:95-104 | classification fails exactly when no step is +1; otherwise a channel is rising iff "started from a pulse" equals "the first edge is a +1 step" |
| SignalProcessing.EdgeIsUnitStep | signal_processor.py:42-46 | on a 0/1 column every edge is +1 or −1 |
| SignalProcessing.EdgesAlternate | signal_processor.py:42-46 | on a 0/1 column consecutive edges have opposite signs |
| SignalProcessing.BinaryEdgesAlternate | signal_processor.py:42-46 | on a 0/1 column the edges are ±1 and alternate in sign |
| SignalProcessing.AlternatingSign | signal_processor.py:70 | in alternating edges, edge j has the first edge's sign when j is even and the opposite sign otherwise |
| SignalProcessing.PairedEdgeSigns | signal_processor.py:79-93 | every pulse of a 0/1 column starts with one sign and ends with the other |
| SignalProcessing.RisingMeansPulsesAreHigh | signal_processor.py:74-104 | on a 0/1 column each pulse starts with a +1 step iff the channel is rising, and ends with a −1 step iff it is rising |
| SignalProcessing.TwoEdgesGiveRisingEdge | signal_processor.py:98-100 | a 0/1 column with two edges has a +1 step, so its classification cannot fail |
| SignalProcessing.FillPulseMetrics | signal_processor.py:48-58 | the loop over columns succeeds iff every column's segmentation does. On failure the error is the first failing column's. On success the keys follow the columns, column i holds that column's records, and its count is their number |
| SignalProcessing.CalculatePulseMetrics | signal_processor.py:48-58 | succeeds iff every column has at least 3 edges, and otherwise raises the `np.split` error; keys, records and counts as for `FillPulseMetrics` |
| SignalProcessing.MapColumns | signal_processor.py:60-65 | a dict comprehension over the columns succeeds iff every column's value does; the first failure propagates; keys follow the columns |
| SignalProcessing.DetermineRisingSignals | signal_processor.py:60-65 | succeeds iff every column has a +1 step, and otherwise raises `IndexError`; entry i is column i's classification |
| SignalProcessing.PointsView | signal_processor.py:106-111 | same keys and lengths; entry k is record k's (start, end) |
| SignalProcessing.WidthView | signal_processor.py:113-118 | same keys and lengths; entry k is record k's width |
| SignalProcessing.SignalProcessor.New | signal_processor.py:24-38 | construction succeeds iff every filtered column has at least 3 edges (else the `np.split` error); the object then holds the filtered frame, its edge series, and counts, records and classifications that are the segmentation of each column |
| SignalProcessing.SignalProcessor.constructor | signal_processor.py:24-38 | on 0/1 columns, an odd window and at least 3 edges per filtered column, the object holds the frame, its filtered frame, its edge series, and counts, records and classifications that are the segmentation of each column |
| SignalProcessing.SignalProcessor.ValidRecordsOrdered | signal_processor.py:34 | the records held by a constructed processor are ordered and disjoint |
| SignalProcessing.SignalProcessor.PulsePoints | signal_processor.py:106-111 | one (start, end) list per channel, as long as the channel's count; each point has 0 ≤ start < end, and successive pulses do not overlap |
| SignalProcessing.SignalProcessor.PulseWidth | signal_processor.py:113-118 | one width list per channel, as long as the channel's count; each width is end − start and positive |
| Grapher.KeysWith | signal_grapher.py:112-114 | a key is listed iff some entry maps it to the given value |
| Grapher.SignalsToPlot | signal_grapher.py:107-115 | "all" lists every channel; "rising" and "falling" list exactly the channels with that classification; any other setting lists none |
| Grapher.KeysWithAppend | signal_grapher.py:112-114 | the keys selected from two dicts laid end to end are those of the first followed by those of the second, so the selection keeps dict order and lists each entry once |
| Grapher.SignalsToPlotInOrder | signal_grapher.py:107-115 | for every setting, the selection over `a + b` is the selection over `a` then over `b`; one entry is selected under "all", under "rising" iff its flag is set, under "falling" iff it is clear, and never under another setting |
| Grapher.RisingAndFallingPartitionAll | signal_grapher.py:107-115 | the "rising" and "falling" lists together hold exactly the channels of "all", as a multiset |
| Grapher.SignalGrapher.constructor | signal_grapher.py:24-46 | stores its inputs, selects the channels to annotate, and starts with no marker lines |
| Grapher.SignalGrapher.AddVlines | signal_grapher.py:117-119 | replaces the marker lines and changes nothing else |
| Text.Fields | storage_controller.py:78 | `str.split()`: every field is non-empty and free of whitespace |
| Text.FieldsOfSpacedWords | storage_controller.py:78 | a word followed by whitespace is the first field, and the rest is split on its own |
| Text.Split | storage_controller.py:101 | `str.split(sep)`: at least one piece, and no piece contains the separator |
| Text.JoinSplit | storage_controller.py:101 | joining the pieces with the separator gives back the string |
| Text.SplitJoin | storage_controller.py:101 | splitting a join of separator-free pieces gives back the pieces |
| Text.SplitAround | storage_controller.py:101-107 | splitting `a + sep + b` is splitting `a`, then splitting `b` |
| Text.Lower | storage_controller.py:90 | same length; ASCII capitals become lower case and everything else is kept |
| Text.LessIrreflexive | storage_controller.py:96 | no string sorts before itself |
| Text.LessTotal | storage_controller.py:96 | of two different strings one sorts before the other |
| Text.LessTransitive | storage_controller.py:96 | code-point order is transitive |
| Text.LessAfterCommonPrefix | storage_controller.py:96 | a shared prefix does not change the order |
| Text.Greatest | storage_controller.py:96 | `sorted(names)[-1]`: one of the names, and every other name sorts before it |
| Text.GreatestIsMaximum | storage_controller.py:96 | a name that every other name sorts before is `sorted(names)[-1]` |
| Text.DecimalStringValue | storage_controller.py:119 | `str(n)` reads back as n |
| Text.ZFill | storage_controller.py:119 | `zfill(width)`: pads with zeros to `width` after any sign, and never shortens |
| Text.ParseInt | storage_controller.py:106-108 | `int()` of a non-empty run of ASCII digits is its decimal value |
| Text.ParseZFilledDecimal | storage_controller.py:106-119 | `int(str(n).zfill(w))` is n |
| Text.PathJoin | storage_controller.py:83 | `os.path.join`: an absolute second part replaces the first; otherwise the parts are joined with exactly one `/` between them, none being added when the first part is empty or already ends in `/` |
| Storage.Defaults | storage_controller.py:57-70 | `reset`: the plug flag is re-read, the drive is not mounted or ready, paths are unset, lists are empty and numbers are 0 |
| Storage.FirstMountLine | storage_controller.py:74-79 | the first mount-table line containing `/dev/sdb1`, or none exactly when no line contains it |
| Storage.PdfFiles | storage_controller.py:87-91 | a listed name is kept iff its lower-cased form ends in `.pdf` |
| Storage.IsPdfName | storage_controller.py:90 | `f.lower().endswith(".pdf")`; `PdfSuffixIsPdfName` states that every `.pdf` name passes |
| Storage.ReportDate | storage_controller.py:98-101 | `"-".join(name.split("-")[:3])`; `DatedNameParts` and `ReportNameRoundTrip` state that a report name's date reads back |
| Storage.ReportIdx | storage_controller.py:103-108 | `int(name.split("-")[3].split(".")[0])`, with `IndexError` for fewer than four parts and `ValueError` for a non-number; `DatedNameParts` and `ReportNameRoundTrip` state it |
| Storage.LastIndex | storage_controller.py:103-108 | the index `update` reads: parsed from a non-empty last report, else the index already held; `RefreshRaises` states its effect on `update` |
| Storage.ReportName | storage_controller.py:119 | `REPORT_NAME` with the index `str(idx).zfill(3)`: `<date>-<index>.pdf`; `ReportNameRoundTrip` states that it parses back |
| Storage.PdfSuffixIsPdfName | storage_controller.py:90 | every name ending in `.pdf` is kept |
| Storage.DatedNameParts | storage_controller.py:98-108 | for `date-stem.pdf` with a three-part date, the date reads back; the index is `int(stem)`, or `ValueError` when the stem is not a number |
| Storage.ReportNameRoundTrip | storage_controller.py:98-120 | a report name built from a three-part date and index n reads back as that date and index n |
| Storage.ListReports | storage_controller.py:46-49 | the data directory is `<mount>/data`; the PDF list is the filtered listing; the last report is set iff the list is non-empty, and is then the greatest name in code-point order; the date is set iff there is a non-empty last report, and is then its first three dash-separated parts |
| Storage.RefreshLastReport | storage_controller.py:87-101 | after any refresh that records a last report, the PDF list is the listing's PDF names, the last report is the greatest of them, and the date is that report's first three dash parts |
| Storage.NameNextReport | storage_controller.py:50-55 | raises exactly when `LastIndex` of the state fails, with its error; otherwise stores that index; on success the free space is block size × available blocks, and the drive is ready iff that exceeds 100000; on a parse error the state is left as it was |
| Storage.RefreshRaises | storage_controller.py:38-55 | `update` raises exactly when the found mount line has fewer than two fields, or a non-empty last report's index does not parse (with that error); otherwise the stored last index is the parsed one, or 0 when there is no report |
| Storage.Refresh | storage_controller.py:38-55 | the plug flag is the device check; mounted iff plugged and some mount line names the drive; ready iff mounted, no exception, and more than 100000 bytes free |
| Storage.RefreshMounted | storage_controller.py:45-55 | once mounted at m, the drive stays plugged and mounted at m, with data directory `m/data` |
| Storage.RefreshFoundDrive | storage_controller.py:42-55 | a refresh that set a data directory went through the mounted branch |
| Storage.NextReportIndex | storage_controller.py:110-120 | the next index is last + 1 when the last report is from the current date and 1 otherwise; the next report is that name inside the data directory |
| Storage.ReportThousandSortsBeforeNineHundredNinetyNine | storage_controller.py:96 | report 1000 of a date sorts before report 999 of the same date |
| Storage.NextReportAfter999Collides | storage_controller.py:93-120 | with reports 999 and 1000 of the current date, report 999 is taken as the last one, and the next report is named like report 1000, which is already on the drive |
| Storage.StrayPdfStopsRefresh | storage_controller.py:93-108 | a dash-free PDF name that sorts after the reports makes every refresh raise `IndexError`, and the drive is never ready |
| Storage.HighestIndex | storage_controller.py:110-116 | the highest index, by value, of the names that parse as reports of the date (0 if none): no such report has a higher index, and a non-zero result is some report's index |
| Storage.NextReportIsNew | storage_controller.py:110-120 | the report named with one past the highest index by value is never already in the directory |
| Storage.NextIndexAfterConsecutiveReports | storage_controller.py:110-116 | with exactly reports 1..n of the date present, the next index is n + 1 |
| Storage.StorageController.Init | storage_controller.py:22-35 | the constructor's field defaults |
| Storage.StorageController.Reset | storage_controller.py:57-70 | the state becomes `Defaults` of the device check |
| Storage.StorageController.GetMountPoint | storage_controller.py:72-79 | with no matching line nothing changes. Otherwise the drive is marked mounted, then the mount point is the line's second field, or `IndexError` with the mount point unchanged |
| Storage.StorageController.CreateDataDirectory | storage_controller.py:81-85 | the data directory becomes `<mount>/data`; nothing else changes |
| Storage.StorageController.GetPdfFiles | storage_controller.py:87-91 | the PDF list becomes the filtered listing; nothing else changes |
| Storage.StorageController.GetLastPdfReport | storage_controller.py:93-96 | the last report becomes the greatest name when the list is non-empty; nothing else changes |
| Storage.StorageController.GetLastPdfReportDate | storage_controller.py:98-101 | the date becomes the first three dash parts when there is a non-empty last report; nothing else changes |
| Storage.StorageController.GetLastPdfReportIdx | storage_controller.py:103-108 | the index becomes the parsed index, or the parse error is raised with nothing changed |
| Storage.StorageController.SetCurrentPdfReport | storage_controller.py:110-120 | sets the next index and the next report's path; nothing else changes |
| Storage.StorageController.GetFreeSpace | storage_controller.py:122-125 | free space becomes fragment size × available fragments; nothing else changes |
| Storage.StorageController.Update | storage_controller.py:38-55 | the new state and the exception are exactly `Refresh` of the environment |
| Storage.StorageController.PrepareNextReport | storage_controller.py:50-55 | the tail of `update` is exactly `NameNextReport` of the state before it |
| Storage.StorageController.Changed | storage_controller.py:132-145 | refreshes; an exception propagates; otherwise the result is whether the plugged, mounted or ready flag differs from before |
| Storage.StorageController.Create | storage_controller.py:22-36 | construction fails exactly when the first refresh raises; otherwise the new object's state is that refresh |

## Left out

- The operating system is an input (`Storage.Env`):
  - `os.path.exists` is `usbDevicePresent`;
  - the `/proc/mounts` lines are `mounts`;
  - `os.listdir` is `dataDirListing`;
  - `statvfs`'s fragment size and count are `blockSize` and `availableBlocks`.

  Their own failures are not modelled: a missing file, a missing directory,
  or a permission error.
- `os.mkdir` in `_create_data_directory` is not modelled; the model only
  computes the directory's path.
- The current date (`CURRENT_DATE`, from the clock in config.py:40) is a
  parameter.
- `FILTER_WSIZE` and `PLOT_WIDTH` are read from the configuration but not
  defined in config.py. They are the parameters `wsize` and `plotWidth`.
- SignalProcessing.SignalProcessor.New requires 0/1 columns and an odd
  window:
  - the median filter is modelled on 0/1 samples only;
  - scipy's `ValueError` for an even window is not modelled, because the
    window is a configuration constant.
- SignalProcessing.FilterNoise and MedianFilter.MedFilt require an odd
  window and 0/1 columns, for the same reasons: `medfilt` on other sample
  values is not modelled.
- SignalProcessing.SignalProcessor.constructor requires, besides 0/1
  columns and an odd window, that every filtered column has at least 3
  edges. On other input `__init__` raises; `New` models that case.
- Column values are integers. pandas dtypes, NaN and float samples are not
  modelled.
- Two columns with the same name would collapse into one dict entry in
  Python; the model keeps both.
- Drawing is not modelled: `plot_signals`, the matplotlib figure, the
  `figure` attribute, colours and labels.
- Logging and the logger module are not modelled.
- analyzer_controller.py, analyzer_reporter.py and report_generator.py are
  not part of this model.
- Text.Lower and Storage.IsPdfName fold only the ASCII letters. Python's
  `str.lower` also folds other scripts.
- Text.ParseInt states in its contract only the all-digits case, which is
  the one report names produce. Its body also models:
  - surrounding whitespace;
  - a sign;
  - single underscores between digits.

  Non-ASCII digits are not accepted.
- Text.Fields states only that fields are non-empty and whitespace-free;
  how a line splits is stated by Text.FieldsOfSpacedWords.
- Storage.StorageController.Changed is a read-only property in Python. It
  is modelled as a method, because it updates the object.
- The class keeps the code as written. The corrected next index
  (`Storage.HighestIndex`, `Storage.NextIndex`) is stated and proved beside
  it, and is not wired into `Update`.

## Findings

| source | as written | input that shows it | evidently intended | confidence | as-written member | corrected member |
|---|---|---|---|---|---|---|
| storage_controller.py:93-116 | The last report is `sorted(pdf_files)[-1]`, the greatest name in code-point order, and the next index is one past its index | reports `D-999.pdf` and `D-1000.pdf` of the current date D: `D-999.pdf` is taken as last, and the next name is `D-1000.pdf` again | the next index is one past the highest index of the date, by value, so no report is overwritten | not executed; follows from code-point order, but needs 1000 reports in one day | Storage.NextReportAfter999Collides | Storage.NextReportIsNew |
| storage_controller.py:93-108 | Whatever name sorts last is parsed as `date-index.pdf` | `2024-03-01-001.pdf` with `notes.pdf`: `notes.pdf` sorts last, `split("-")[3]` raises `IndexError`, and the drive never becomes ready | PDF files that are not reports are skipped when the last index is found | not executed; any dash-free PDF name starting with a letter triggers it | Storage.StrayPdfStopsRefresh | Storage.NextReportIsNew |
