/** The USB report store: whether the drive is plugged in and mounted, where
    its data directory is, which PDF report was written last, the name of
    the next report, and whether there is room to write it. The operating
    system's answers (the device node, the mount table, the directory
    listing, the file-system block counts) are the `Env` inputs. */
module Storage {
  import opened Wrappers
  import opened Text

  /** `USB_DRIVE`: the device node of the drive's first partition. */
  const UsbDrive: string := "/dev/sdb1"

  /** `WRITE_TRESHOLD`: the free space, in bytes, above which reports may
      be written. */
  const WriteThreshold: int := 100000

  /** `DATA_DIR_NAME`. */
  const DataDirName: string := "data"

  /** What the operating system reports at one refresh. */
  datatype Env = Env(
    usbDevicePresent: bool,       // `os.path.exists(USB_DRIVE)`
    mounts: seq<string>,          // the lines of `/proc/mounts`
    dataDirListing: seq<string>,  // `os.listdir` of the data directory
    blockSize: nat,               // `f_frsize`
    availableBlocks: nat)         // `f_bavail`

  /** The exceptions a refresh can raise: `split()[1]` on a mount line
      with one field, `split("-")[3]` on a report name with fewer than four
      dash-separated parts (both `IndexError`), and `int()` on an index that
      is not a number (`ValueError`). */
  datatype StorageError = MountLineTooShort | ReportNameTooShort | ReportIndexNotANumber

  /** A snapshot of the controller's fields. */
  datatype StorageState = StorageState(
    usbPlugged: bool,
    usbMounted: bool,
    mountPoint: Option<string>,
    dataDir: Option<string>,
    pdfFiles: seq<string>,
    lastPdfReport: Option<string>,
    lastPdfReportDate: Option<string>,
    lastPdfReportIdx: int,
    currentPdfReport: Option<string>,
    currentPdfReportIdx: int,
    freeSpace: int,
    readyToWrite: bool)

  /** The state `reset` leaves: everything cleared, the plug re-checked. */
  function Defaults(usbPlugged: bool): (s: StorageState)
    ensures s.usbPlugged == usbPlugged && !s.usbMounted && !s.readyToWrite
    ensures s.mountPoint == None && s.dataDir == None && s.pdfFiles == []
    ensures s.lastPdfReport == None && s.lastPdfReportDate == None && s.currentPdfReport == None
    ensures s.lastPdfReportIdx == 0 && s.currentPdfReportIdx == 0 && s.freeSpace == 0
  {
    StorageState(usbPlugged, false, None, None, [], None, None, 0, None, 0, 0, false)
  }

  // ---------------------------------------------------------------------
  // Mount table

  /** Position of the first mount line that mentions the drive. */
  function FirstMountLine(mounts: seq<string>): (r: Option<nat>)
    ensures r.None? <==> forall j :: 0 <= j < |mounts| ==> !Contains(mounts[j], UsbDrive)
    ensures r.Some? ==>
              r.value < |mounts| && Contains(mounts[r.value], UsbDrive) &&
              forall j :: 0 <= j < r.value ==> !Contains(mounts[j], UsbDrive)
  {
    if mounts == [] then None
    else if Contains(mounts[0], UsbDrive) then Some(0)
    else match FirstMountLine(mounts[1..])
      case None => None
      case Some(i) => Some(i + 1)
  }

  // ---------------------------------------------------------------------
  // Report files and names

  /** `f.lower().endswith(".pdf")`. */
  predicate IsPdfName(f: string)
  {
    EndsWith(Lower(f), ".pdf")
  }

  /** `get_pdf_files`: the listed names that end in `.pdf` in any ASCII
      letter case, in listing order. */
  function PdfFiles(listing: seq<string>): (r: seq<string>)
    ensures |r| <= |listing|
    ensures forall f :: f in r <==> f in listing && IsPdfName(f)
  {
    if listing == [] then []
    else (if IsPdfName(listing[0]) then [listing[0]] else []) + PdfFiles(listing[1..])
  }

  /** `"-".join(name.split("-")[:3])`: the first three dash-separated parts. */
  function ReportDate(name: string): string
  {
    var parts := Split(name, '-');
    Join(parts[..if |parts| < 3 then |parts| else 3], '-')
  }

  /** `int(name.split("-")[3].split(".")[0])`. */
  function ReportIdx(name: string): Result<int, StorageError>
  {
    var parts := Split(name, '-');
    if |parts| < 4 then Failure(ReportNameTooShort)
    else match ParseInt(Split(parts[3], '.')[0])
      case None => Failure(ReportIndexNotANumber)
      case Some(n) => Success(n)
  }

  /** `REPORT_NAME` with `IDX` set to `str(idx).zfill(3)`. */
  function ReportName(date: string, idx: int): string
  {
    date + "-" + ZFill(IntString(idx), 3) + ".pdf"
  }

  /** The last report's index as `update` reads it: parsed from the last
      report's name when there is a non-empty one, else the index already
      held. */
  function LastIndex(s: StorageState): Result<int, StorageError>
  {
    if s.lastPdfReport.Some? && s.lastPdfReport.value != [] then ReportIdx(s.lastPdfReport.value)
    else Success(s.lastPdfReportIdx)
  }

  /** The zero-filled index of a report name holds neither separator. */
  lemma ZFilledIndexHasNoSeparators(idx: nat)
    ensures '-' !in ZFill(DecimalString(idx), 3) && '.' !in ZFill(DecimalString(idx), 3)
  {
    var d := DecimalString(idx);
    var z := ZFill(d, 3);
    if |d| < 3 {
      var zeros := Zeros(3 - |d|);
      assert forall i :: 0 <= i < |zeros| ==> IsDigit(zeros[i]);
      assert z == zeros + d;
    }
    assert forall i :: 0 <= i < |z| ==> IsDigit(z[i]);
  }

  /** Splitting `date-stem.pdf` at dashes gives the date's parts and then
      the stem with its extension. */
  lemma SplitDatedName(date: string, stem: string)
    requires '-' !in stem && '.' !in stem
    ensures Split(date + "-" + stem + ".pdf", '-') == Split(date, '-') + [stem + ".pdf"]
  {
    var tail := stem + ".pdf";
    assert date + "-" + stem + ".pdf" == date + ['-'] + tail;
    assert '-' !in tail by {
      assert forall i :: 0 <= i < |tail| ==> tail[i] == (if i < |stem| then stem[i] else ".pdf"[i - |stem|]);
    }
    SplitAround(date, '-', tail);
  }

  /** The part of `stem + ".pdf"` before the first dot is `stem` when the
      stem has no dot. */
  lemma StemOfPdfName(stem: string)
    requires '.' !in stem
    ensures Split(stem + ".pdf", '.')[0] == stem
  {
    assert stem + ".pdf" == stem + ['.'] + "pdf";
    SplitAround(stem, '.', "pdf");
  }

  /** A name `date-stem.pdf`, for a `YYYY-MM-DD`-shaped date (three
      dash-separated parts) and a stem with neither separator, reads back
      as that date, and its index is the stem read as a number, or a
      `ValueError` when the stem is not one. */
  lemma DatedNameParts(date: string, stem: string)
    requires |Split(date, '-')| == 3
    requires '-' !in stem && '.' !in stem
    ensures ReportDate(date + "-" + stem + ".pdf") == date
    ensures ReportIdx(date + "-" + stem + ".pdf") ==
              match ParseInt(stem)
              case None => Failure(ReportIndexNotANumber)
              case Some(n) => Success(n)
  {
    var parts := Split(date + "-" + stem + ".pdf", '-');
    SplitDatedName(date, stem);
    assert parts[..3] == Split(date, '-');
    JoinSplit(date, '-');
    assert parts[3] == stem + ".pdf";
    StemOfPdfName(stem);
  }

  /** A report name built for a `YYYY-MM-DD`-shaped date and a
      non-negative index reads back as that date and that index. */
  lemma ReportNameRoundTrip(date: string, idx: nat)
    requires |Split(date, '-')| == 3
    ensures ReportDate(ReportName(date, idx)) == date
    ensures ReportIdx(ReportName(date, idx)) == Success(idx)
  {
    var z := ZFill(DecimalString(idx), 3);
    ZFilledIndexHasNoSeparators(idx);
    DatedNameParts(date, z);
    ParseZFilledDecimal(idx, 3);
  }

  /** A name that ends in ".pdf" is a PDF file name. */
  lemma PdfSuffixIsPdfName(stem: string)
    ensures IsPdfName(stem + ".pdf")
  {
    var name := stem + ".pdf";
    var lower := Lower(name);
    assert name[|name| - 4..] == ".pdf";
    assert lower[|lower| - 4..] == ".pdf" by {
      assert forall i :: |name| - 4 <= i < |name| ==> lower[i] == name[i];
    }
  }

  // ---------------------------------------------------------------------
  // One refresh, as a function of the environment

  /** The reports part of `update` on a mounted drive, step by step: the
      data directory under the mount point, its PDF files, the greatest of
      them as the last report, and that report's date. */
  function ListReports(listing: seq<string>, s: StorageState): (r: StorageState)
    requires s.mountPoint.Some? && s.lastPdfReport.None? && s.lastPdfReportDate.None?
    ensures r.dataDir == Some(PathJoin(s.mountPoint.value, DataDirName))
    ensures forall f :: f in r.pdfFiles <==> f in listing && IsPdfName(f)
    ensures r.pdfFiles == [] <==> r.lastPdfReport.None?
    ensures r.lastPdfReport.Some? ==> r.lastPdfReport.value == Greatest(r.pdfFiles)
    ensures r.lastPdfReportDate.Some? <==> r.lastPdfReport.Some? && r.lastPdfReport.value != []
    ensures r.lastPdfReportDate.Some? ==> r.lastPdfReportDate.value == ReportDate(r.lastPdfReport.value)
  {
    var s1 := s.(dataDir := Some(PathJoin(s.mountPoint.value, DataDirName)));
    var s2 := s1.(pdfFiles := PdfFiles(listing));
    var s3 := s2.(lastPdfReport := if s2.pdfFiles == [] then s2.lastPdfReport else Some(Greatest(s2.pdfFiles)));
    s3.(lastPdfReportDate :=
          if s3.lastPdfReport.Some? && s3.lastPdfReport.value != [] then Some(ReportDate(s3.lastPdfReport.value))
          else s3.lastPdfReportDate)
  }

  /** The rest of `update` once the reports are listed: parse the last
      report's index, which may raise; name the next report; measure the
      free space and decide whether the drive is ready. */
  function NameNextReport(currentDate: string, env: Env, s: StorageState): (r: (StorageState, Option<StorageError>))
    requires s.dataDir.Some? && !s.readyToWrite
    ensures r.1.Some? <==> LastIndex(s).Failure?
    ensures r.1.Some? ==> r.1.value == LastIndex(s).error
    ensures r.1.None? ==> r.0.lastPdfReportIdx == LastIndex(s).value
    ensures r.1.None? ==> r.0.freeSpace == env.blockSize * env.availableBlocks
    ensures r.1.None? ==> (r.0.readyToWrite <==> env.blockSize * env.availableBlocks > WriteThreshold)
    ensures r.1.Some? ==> r.0 == s
  {
    var idx := LastIndex(s);
    if idx.Failure? then (s, Some(idx.error))
    else
      var s1 := s.(lastPdfReportIdx := idx.value);
      var current := if s1.lastPdfReportDate != Some(currentDate) then 1 else s1.lastPdfReportIdx + 1;
      var s2 := s1.(currentPdfReportIdx := current,
                    currentPdfReport := Some(PathJoin(s1.dataDir.value, ReportName(currentDate, current))));
      var s3 := s2.(freeSpace := env.blockSize * env.availableBlocks);
      (s3.(readyToWrite := if s3.freeSpace > WriteThreshold then true else s3.readyToWrite), None)
  }

  /** What `update` leaves in the fields, and the exception it raises if
      any: reset; if plugged, find the mount point; if mounted, list the
      reports and name the next one. An exception stops the refresh with
      the fields set so far. */
  function Refresh(currentDate: string, env: Env): (r: (StorageState, Option<StorageError>))
    ensures r.0.usbPlugged == env.usbDevicePresent
    ensures r.0.usbMounted <==> env.usbDevicePresent && FirstMountLine(env.mounts).Some?
    ensures r.0.readyToWrite <==>
              env.usbDevicePresent && FirstMountLine(env.mounts).Some? && r.1.None? &&
              env.blockSize * env.availableBlocks > WriteThreshold
  {
    var reset := Defaults(env.usbDevicePresent);
    if !env.usbDevicePresent then (reset, None)
    else match FirstMountLine(env.mounts)
      case None => (reset, None)
      case Some(i) =>
        var fields := Fields(env.mounts[i]);
        if |fields| < 2 then (reset.(usbMounted := true), Some(MountLineTooShort))
        else RefreshMounted(currentDate, env, fields[1])
  }

  /** The fields right after the mount point is found. */
  function MountedAt(mountPoint: string): (s: StorageState)
    ensures s.usbPlugged && s.usbMounted && s.mountPoint == Some(mountPoint) && !s.readyToWrite
  {
    Defaults(true).(usbMounted := true, mountPoint := Some(mountPoint))
  }

  /** `update` from the point where the drive is found mounted at
      `mountPoint`. */
  function RefreshMounted(currentDate: string, env: Env, mountPoint: string): (r: (StorageState, Option<StorageError>))
    ensures r.0.usbPlugged && r.0.usbMounted
    ensures r.0.mountPoint == Some(mountPoint) && r.0.dataDir == Some(PathJoin(mountPoint, DataDirName))
  {
    NameNextReport(currentDate, env, ListReports(env.dataDirListing, MountedAt(mountPoint)))
  }

  /** A refresh that finds the drive's data directory went through the
      mounted branch. */
  lemma RefreshFoundDrive(currentDate: string, env: Env)
    requires Refresh(currentDate, env).0.dataDir.Some?
    ensures Refresh(currentDate, env).0.mountPoint.Some?
    ensures Refresh(currentDate, env) ==
              RefreshMounted(currentDate, env, Refresh(currentDate, env).0.mountPoint.value)
  {
  }

  /** After any refresh that records a last report, the PDF list is the
      listing's PDF names, the last report is the greatest of them in
      code-point order, and the recorded date is that report's first three
      dash-separated parts. */
  lemma RefreshLastReport(currentDate: string, env: Env)
    requires Refresh(currentDate, env).0.lastPdfReport.Some?
    ensures var s := Refresh(currentDate, env).0;
            s.pdfFiles != [] && s.lastPdfReport.value == Greatest(s.pdfFiles) &&
            (forall f :: f in s.pdfFiles <==> f in env.dataDirListing && IsPdfName(f)) &&
            s.lastPdfReportDate == if s.lastPdfReport.value != [] then Some(ReportDate(s.lastPdfReport.value)) else None
  {
    var fields := Fields(env.mounts[FirstMountLine(env.mounts).value]);
    var listed := ListReports(env.dataDirListing, MountedAt(fields[1]));
    assert Refresh(currentDate, env).0.pdfFiles == listed.pdfFiles;
  }

  /** When `update` raises and which index it stores. On a plugged drive
      whose mount line is found, it raises `IndexError` when that line has
      fewer than two fields; otherwise it raises exactly when there is a
      non-empty last report, the greatest PDF name, whose index does not
      parse, with that parse error. When it does not raise, the stored last
      index is the parsed one, or 0 when there is no report. */
  lemma RefreshRaises(currentDate: string, env: Env)
    ensures var r := Refresh(currentDate, env);
            var pdfs := PdfFiles(env.dataDirListing);
            var found := env.usbDevicePresent && FirstMountLine(env.mounts).Some?;
            var shortLine := found && |Fields(env.mounts[FirstMountLine(env.mounts).value])| < 2;
            var named := pdfs != [] && Greatest(pdfs) != [];
            (r.1.Some? <==> shortLine || (found && named && ReportIdx(Greatest(pdfs)).Failure?)) &&
            (shortLine ==> r.1 == Some(MountLineTooShort)) &&
            (found && !shortLine && named ==>
               if ReportIdx(Greatest(pdfs)).Failure? then r.1 == Some(ReportIdx(Greatest(pdfs)).error)
               else r.0.lastPdfReportIdx == ReportIdx(Greatest(pdfs)).value) &&
            (found && !shortLine && !named ==> r.1.None? && r.0.lastPdfReportIdx == 0)
  {
    if env.usbDevicePresent && FirstMountLine(env.mounts).Some? {
      var fields := Fields(env.mounts[FirstMountLine(env.mounts).value]);
      if |fields| >= 2 {
        var listed := ListReports(env.dataDirListing, MountedAt(fields[1]));
        assert listed.pdfFiles == PdfFiles(env.dataDirListing);
        assert listed.lastPdfReportIdx == 0;
      }
    }
  }

  /** A refresh that succeeds on a mounted drive names the next report in
      the data directory: index 1 when the last report is not from the
      current date, one past the last report's index when it is. */
  lemma NextReportIndex(currentDate: string, env: Env)
    requires Refresh(currentDate, env).0.usbMounted && Refresh(currentDate, env).1.None?
    ensures var s := Refresh(currentDate, env).0;
            s.dataDir.Some? &&
            s.currentPdfReportIdx == (if s.lastPdfReportDate == Some(currentDate) then s.lastPdfReportIdx + 1 else 1) &&
            s.currentPdfReport == Some(PathJoin(s.dataDir.value, ReportName(currentDate, s.currentPdfReportIdx)))
  {
  }

  /** Two PDF names are listed as they are. */
  lemma PdfPairListed(a: string, b: string)
    requires IsPdfName(a) && IsPdfName(b)
    ensures PdfFiles([a, b]) == [a, b]
  {
    assert [a, b][1..] == [b];
  }

  // ---------------------------------------------------------------------
  // The last report is the greatest name, not the greatest index

  /** Report 1000 of a date sorts before report 999 of the same date:
      names compare code point by code point, and '1' < '9'. */
  lemma ReportThousandSortsBeforeNineHundredNinetyNine(date: string)
    ensures Less(ReportName(date, 1000), ReportName(date, 999))
  {
    assert IntString(1000) == "1000" && IntString(999) == "999";
    assert ReportName(date, 1000) == (date + "-") + "1000.pdf";
    assert ReportName(date, 999) == (date + "-") + "999.pdf";
    LessAfterCommonPrefix(date + "-", "1000.pdf", "999.pdf");
  }

  /** As written: with reports 999 and 1000 of the current date on the
      drive, the refresh takes report 999 as the last one and names report
      1000 as the next, which is already there and would be overwritten. */
  lemma NextReportAfter999Collides(date: string, env: Env)
    requires |Split(date, '-')| == 3
    requires env.dataDirListing == [ReportName(date, 999), ReportName(date, 1000)]
    requires Refresh(date, env).0.dataDir.Some?
    ensures Refresh(date, env).1 == None
    ensures Refresh(date, env).0.lastPdfReport == Some(ReportName(date, 999))
    ensures Refresh(date, env).0.currentPdfReport ==
              Some(PathJoin(Refresh(date, env).0.dataDir.value, env.dataDirListing[1]))
  {
    RefreshFoundDrive(date, env);
    var mountPoint := Refresh(date, env).0.mountPoint.value;
    var n999, n1000 := ReportName(date, 999), ReportName(date, 1000);
    var listed := ListReports(env.dataDirListing, MountedAt(mountPoint));
    assert listed.lastPdfReport == Some(n999) by {
      PdfSuffixIsPdfName(date + "-" + ZFill(IntString(999), 3));
      PdfSuffixIsPdfName(date + "-" + ZFill(IntString(1000), 3));
      PdfPairListed(n999, n1000);
      ReportThousandSortsBeforeNineHundredNinetyNine(date);
      GreatestIsMaximum([n999, n1000], n999);
    }
    ReportNameRoundTrip(date, 999);
    assert listed.lastPdfReportDate == Some(date) && LastIndex(listed) == Success(999);
  }

  /** As written: a PDF file of another origin whose name sorts after the
      reports and has no dash (`notes.pdf` next to `2024-03-01-001.pdf`)
      stops every refresh with an `IndexError`, so the drive never becomes
      ready to write. */
  lemma StrayPdfStopsRefresh(date: string, stray: string, env: Env)
    requires IsPdfName(stray) && '-' !in stray && Less(ReportName(date, 1), stray)
    requires env.dataDirListing == [ReportName(date, 1), stray]
    requires Refresh(date, env).0.dataDir.Some?
    ensures Refresh(date, env).1 == Some(ReportNameTooShort)
    ensures !Refresh(date, env).0.readyToWrite
  {
    RefreshFoundDrive(date, env);
    var mountPoint := Refresh(date, env).0.mountPoint.value;
    var report := ReportName(date, 1);
    var listed := ListReports(env.dataDirListing, MountedAt(mountPoint));
    assert listed.lastPdfReport == Some(stray) by {
      PdfSuffixIsPdfName(date + "-" + ZFill(IntString(1), 3));
      PdfPairListed(report, stray);
      GreatestIsMaximum([report, stray], stray);
    }
    assert LastIndex(listed) == Failure(ReportNameTooShort);
  }

  /** Corrected: the highest index among the names that parse as reports
      of `date`, by value; names that do not parse are skipped. */
  function HighestIndex(date: string, names: seq<string>): (r: nat)
    ensures forall k :: 0 <= k < |names| && ReportDate(names[k]) == date && ReportIdx(names[k]).Success? ==>
              ReportIdx(names[k]).value <= r
    ensures r == 0 || exists k :: 0 <= k < |names| && ReportDate(names[k]) == date && ReportIdx(names[k]) == Success(r)
  {
    if names == [] then 0
    else
      var rest := HighestIndex(date, names[1..]);
      assert forall k :: 1 <= k < |names| ==> names[k] == names[1..][k - 1];
      var idx := ReportIdx(names[0]);
      if ReportDate(names[0]) == date && idx.Success? && idx.value > rest then idx.value else rest
  }

  /** Corrected: the next report of `date` is numbered one past the
      highest one on the drive. */
  function NextIndex(date: string, names: seq<string>): nat
  {
    HighestIndex(date, names) + 1
  }

  /** Corrected: the next report name is never one already on the drive,
      whatever else the directory holds. */
  lemma NextReportIsNew(date: string, names: seq<string>)
    requires |Split(date, '-')| == 3
    ensures ReportName(date, NextIndex(date, names)) !in names
  {
    ReportNameRoundTrip(date, NextIndex(date, names));
  }

  /** Corrected: when the drive holds exactly reports 1..n of `date`, the
      next report is n + 1, as the code intends. */
  lemma NextIndexAfterConsecutiveReports(date: string, names: seq<string>)
    requires |Split(date, '-')| == 3
    requires forall k :: 0 <= k < |names| ==> names[k] == ReportName(date, k + 1)
    ensures NextIndex(date, names) == |names| + 1
  {
    var n := |names|;
    var h := HighestIndex(date, names);
    if n > 0 {
      assert ReportDate(names[n - 1]) == date && ReportIdx(names[n - 1]) == Success(n) by {
        ReportNameRoundTrip(date, n);
      }
    }
    if h != 0 {
      var k :| 0 <= k < n && ReportDate(names[k]) == date && ReportIdx(names[k]) == Success(h);
      assert h == k + 1 by {
        ReportNameRoundTrip(date, k + 1);
        assert ReportIdx(names[k]) == Success(k + 1);
      }
    }
  }

  /** The controller object. `currentDate` is the configured `CURRENT_DATE`. */
  class StorageController {
    const currentDate: string
    var usbPlugged: bool
    var usbMounted: bool
    var mountPoint: Option<string>
    var dataDir: Option<string>
    var pdfFiles: seq<string>
    var lastPdfReport: Option<string>
    var lastPdfReportDate: Option<string>
    var lastPdfReportIdx: int
    var currentPdfReport: Option<string>
    var currentPdfReportIdx: int
    var freeSpace: int
    var readyToWrite: bool

    function State(): StorageState
      reads this
    {
      StorageState(usbPlugged, usbMounted, mountPoint, dataDir, pdfFiles, lastPdfReport, lastPdfReportDate,
                   lastPdfReportIdx, currentPdfReport, currentPdfReportIdx, freeSpace, readyToWrite)
    }

    /** The field defaults `__init__` sets before its first `update`. */
    constructor Init(currentDate: string, usbPresent: bool)
      ensures this.currentDate == currentDate && State() == Defaults(usbPresent)
    {
      this.currentDate := currentDate;
      usbPlugged, usbMounted, mountPoint, dataDir, pdfFiles := usbPresent, false, None, None, [];
      lastPdfReport, lastPdfReportDate, lastPdfReportIdx := None, None, 0;
      currentPdfReport, currentPdfReportIdx, freeSpace, readyToWrite := None, 0, 0, false;
    }

    /** `reset`. */
    method Reset(usbPresent: bool)
      modifies this
      ensures State() == Defaults(usbPresent)
    {
      usbPlugged, usbMounted, mountPoint, dataDir, pdfFiles := usbPresent, false, None, None, [];
      lastPdfReport, lastPdfReportDate, lastPdfReportIdx := None, None, 0;
      currentPdfReport, currentPdfReportIdx, freeSpace, readyToWrite := None, 0, 0, false;
      assert State() == StorageState(usbPresent, false, None, None, [], None, None, 0, None, 0, 0, false);
    }

    /** `get_mount_point`: scan the mount table for the first line that
        mentions the drive; mark the drive mounted, then take the line's
        second field as the mount point. Nothing changes when no line
        mentions the drive. */
    method GetMountPoint(mounts: seq<string>) returns (err: Option<StorageError>)
      modifies this`usbMounted, this`mountPoint
      ensures FirstMountLine(mounts).None? ==>
                err == None && usbMounted == old(usbMounted) && mountPoint == old(mountPoint)
      ensures FirstMountLine(mounts).Some? ==>
                var fields := Fields(mounts[FirstMountLine(mounts).value]);
                usbMounted &&
                (|fields| < 2 ==> err == Some(MountLineTooShort) && mountPoint == old(mountPoint)) &&
                (|fields| >= 2 ==> err == None && mountPoint == Some(fields[1]))
    {
      var i := 0;
      while i < |mounts|
        invariant 0 <= i <= |mounts|
        invariant forall j :: 0 <= j < i ==> !Contains(mounts[j], UsbDrive)
        invariant usbMounted == old(usbMounted) && mountPoint == old(mountPoint)
      {
        if Contains(mounts[i], UsbDrive) {
          usbMounted := true;
          var fields := Fields(mounts[i]);
          if |fields| < 2 {
            return Some(MountLineTooShort);
          }
          mountPoint := Some(fields[1]);
          return None;
        }
        i := i + 1;
      }
      return None;
    }

    /** `_create_data_directory`: the data directory under the mount point. */
    method CreateDataDirectory()
      requires mountPoint.Some?
      modifies this`dataDir
      ensures State() == old(State()).(dataDir := Some(PathJoin(mountPoint.value, DataDirName)))
    {
      dataDir := Some(PathJoin(mountPoint.value, DataDirName));
    }

    /** `get_pdf_files`. */
    method GetPdfFiles(listing: seq<string>)
      modifies this`pdfFiles
      ensures State() == old(State()).(pdfFiles := PdfFiles(listing))
    {
      pdfFiles := PdfFiles(listing);
    }

    /** `get_last_pdf_report`: the greatest name, when there is one. */
    method GetLastPdfReport()
      modifies this`lastPdfReport
      ensures State() == old(State()).(lastPdfReport := if pdfFiles == [] then old(lastPdfReport) else Some(Greatest(pdfFiles)))
    {
      if pdfFiles != [] {
        lastPdfReport := Some(Greatest(pdfFiles));
      }
    }

    /** `get_last_pdf_report_date`, when the last report is a non-empty name. */
    method GetLastPdfReportDate()
      modifies this`lastPdfReportDate
      ensures State() == old(State()).(lastPdfReportDate :=
                if lastPdfReport.Some? && lastPdfReport.value != [] then Some(ReportDate(lastPdfReport.value))
                else old(lastPdfReportDate))
    {
      if lastPdfReport.Some? && lastPdfReport.value != [] {
        lastPdfReportDate := Some(ReportDate(lastPdfReport.value));
      }
    }

    /** `get_last_pdf_report_idx`, when the last report is a non-empty name;
        a name that does not parse raises and leaves the index as it was. */
    method GetLastPdfReportIdx() returns (err: Option<StorageError>)
      modifies this`lastPdfReportIdx
      ensures var idx := LastIndex(old(State()));
              (idx.Failure? ==> err == Some(idx.error) && State() == old(State())) &&
              (idx.Success? ==> err == None && State() == old(State()).(lastPdfReportIdx := idx.value))
    {
      err := None;
      if lastPdfReport.Some? && lastPdfReport.value != [] {
        var idx := ReportIdx(lastPdfReport.value);
        if idx.Failure? {
          return Some(idx.error);
        }
        lastPdfReportIdx := idx.value;
      }
    }

    /** `_set_current_pdf_report`: index 1 for a new date, one past the last
        index otherwise, and the full path of the report with that index. */
    method SetCurrentPdfReport()
      requires dataDir.Some?
      modifies this`currentPdfReportIdx, this`currentPdfReport
      ensures var current := if lastPdfReportDate != Some(currentDate) then 1 else lastPdfReportIdx + 1;
              State() == old(State()).(currentPdfReportIdx := current,
                                       currentPdfReport := Some(PathJoin(dataDir.value, ReportName(currentDate, current))))
    {
      currentPdfReportIdx := if lastPdfReportDate != Some(currentDate) then 1 else lastPdfReportIdx + 1;
      currentPdfReport := Some(PathJoin(dataDir.value, ReportName(currentDate, currentPdfReportIdx)));
    }

    /** `get_free_space`: fragment size times available fragments. */
    method GetFreeSpace(blockSize: nat, availableBlocks: nat)
      modifies this`freeSpace
      ensures State() == old(State()).(freeSpace := blockSize * availableBlocks)
    {
      freeSpace := blockSize * availableBlocks;
    }

    /** `update`: one refresh against the environment `env`. */
    method Update(env: Env) returns (err: Option<StorageError>)
      modifies this
      ensures (State(), err) == Refresh(currentDate, env)
    {
      Reset(env.usbDevicePresent);
      err := None;
      if usbPlugged {
        err := GetMountPoint(env.mounts);
        if err.Some? {
          return;
        }
        if usbMounted {
          ghost var mounted := State();
          CreateDataDirectory();
          GetPdfFiles(env.dataDirListing);
          GetLastPdfReport();
          GetLastPdfReportDate();
          ghost var listed := State();
          assert listed == ListReports(env.dataDirListing, mounted);
          err := PrepareNextReport(env);
        }
      }
    }

    /** The second half of `update`'s mounted branch: read the last index,
        name the next report, measure the free space, set the ready flag. */
    method PrepareNextReport(env: Env) returns (err: Option<StorageError>)
      requires dataDir.Some? && !readyToWrite
      modifies this
      ensures (State(), err) == NameNextReport(currentDate, env, old(State()))
    {
      err := GetLastPdfReportIdx();
      if err.Some? {
        return;
      }
      SetCurrentPdfReport();
      GetFreeSpace(env.blockSize, env.availableBlocks);
      if freeSpace > WriteThreshold {
        readyToWrite := true;
      }
    }

    /** `changed`: refresh, and report whether the plugged, mounted or
        ready-to-write flag moved; an exception from the refresh
        propagates. */
    method Changed(env: Env) returns (r: Result<bool, StorageError>)
      modifies this
      ensures State() == Refresh(currentDate, env).0
      ensures Refresh(currentDate, env).1.Some? ==> r == Failure(Refresh(currentDate, env).1.value)
      ensures Refresh(currentDate, env).1.None? ==>
                r == Success(old(usbPlugged) != usbPlugged || old(usbMounted) != usbMounted ||
                             old(readyToWrite) != readyToWrite)
    {
      var previousUsbPlugged, previousUsbMounted, previousReadyToWrite := usbPlugged, usbMounted, readyToWrite;
      var err := Update(env);
      if err.Some? {
        return Failure(err.value);
      }
      r := Success(previousUsbPlugged != usbPlugged || previousUsbMounted != usbMounted ||
                   previousReadyToWrite != readyToWrite);
    }

    /** `StorageController()`: the defaults, then a first refresh, whose
        exception aborts construction. */
    static method Create(currentDate: string, env: Env) returns (r: Result<StorageController, StorageError>)
      ensures Refresh(currentDate, env).1.Some? <==> r.Failure?
      ensures r.Failure? ==> r.error == Refresh(currentDate, env).1.value
      ensures r.Success? ==>
                fresh(r.value) && r.value.currentDate == currentDate && r.value.State() == Refresh(currentDate, env).0
    {
      var c := new StorageController.Init(currentDate, env.usbDevicePresent);
      var err := c.Update(env);
      if err.Some? {
        return Failure(err.value);
      }
      r := Success(c);
    }
  }
}
