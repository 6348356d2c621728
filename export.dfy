/** The script's loop over the project's layouts: sanitize each name, choose
    its two files under the configured policy, ask the exporter for the PDF
    and then the PNG, and report the outcome on the console. The exporter is
    an input: for each layout, what each of its two calls does. */
module Export {
  import opened Sanitizer
  import opened Naming

  /** What an exporter call returned: `QgsLayoutExporter.Success` or any
      other result code. */
  datatype ExportResult = Success | Failed(code: int)

  /** One exporter call: it returns a result code or raises an exception
      (carrying its message). */
  datatype Call = Returns(result: ExportResult) | Raises(error: string)

  /** A layout as the loop sees it: its name, and what the exporter does
      when asked for its PDF and, after that, for its PNG. */
  datatype LayoutJob = LayoutJob(name: string, pdf: Call, png: Call)

  /** The console lines, by kind; a stem is the layout's file stem, as the
      messages print it. */
  datatype Outcome =
    | NoLayouts
    | Exporting(count: nat)
    | PdfFailed(stem: string, result: ExportResult)
    | PngFailed(stem: string, result: ExportResult)
    | Exported(stem: string)
    | Unexpected(stem: string, error: string)
    | InvalidMode(setting: string)
    | Finished

  /** What (part of) a run leaves behind: the console lines, the output
      folder afterwards, and the files the exporter wrote, in order. */
  datatype Report = Report(log: seq<Outcome>, folder: set<File>, written: seq<File>)

  function Files(written: seq<File>): set<File> {
    set w | w in written
  }

  predicate Distinct(s: seq<File>) {
    forall i, j :: 0 <= i < j < |s| ==> s[i] != s[j]
  }

  /** Both calls of the layout return `Success`. */
  predicate Succeeds(job: LayoutJob) {
    job.pdf == Returns(Success) && job.png == Returns(Success)
  }

  /** One of the calls the loop makes for the layout raises (the PNG call is
      only made when the PDF call returned). */
  predicate RaisesSomewhere(job: LayoutJob) {
    job.pdf.Raises? || job.png.Raises?
  }

  predicate IsSuccessLine(o: Outcome) {
    o.Exported?
  }

  predicate IsUnexpectedLine(o: Outcome) {
    o.Unexpected?
  }

  function Count<T>(s: seq<T>, p: T -> bool): nat {
    if s == [] then 0 else (if p(s[0]) then 1 else 0) + Count(s[1..], p)
  }

  lemma {:induction false} CountAppend<T>(a: seq<T>, b: seq<T>, p: T -> bool)
    ensures Count(a + b, p) == Count(a, p) + Count(b, p)
  {
    if a == [] {
      assert a + b == b;
    } else {
      assert (a + b)[1..] == a[1..] + b;
      CountAppend(a[1..], b, p);
    }
  }

  /** The lines the `try` block prints for one layout whose files have stem
      `stem`. */
  function LayoutLines(stem: string, job: LayoutJob): seq<Outcome> {
    match job.pdf
    case Raises(e) => [Unexpected(stem, e)]
    case Returns(p) =>
      match job.png
      case Raises(e) =>
        if p == Success then [Unexpected(stem, e)] else [PdfFailed(stem, p), Unexpected(stem, e)]
      case Returns(q) =>
        if p == Success && q == Success then [Exported(stem)]
        else if p == Success then [PngFailed(stem, q)]
        else if q == Success then [PdfFailed(stem, p)]
        else [PdfFailed(stem, p), PngFailed(stem, q)]
  }

  /** The files the `try` block writes for that layout: a file is written
      when its call returned `Success`. */
  function LayoutFiles(stem: string, job: LayoutJob): seq<File> {
    match job.pdf
    case Raises(_) => []
    case Returns(p) =>
      match job.png
      case Raises(_) => if p == Success then [Pdf(stem)] else []
      case Returns(q) =>
        if p == Success && q == Success then [Pdf(stem), Png(stem)]
        else if p == Success then [Pdf(stem)]
        else if q == Success then [Png(stem)]
        else []
  }

  /** The report after one more layout, exported with stem `stem`: its
      lines are printed after the earlier ones and the files its calls
      wrote join the folder. */
  function Step(before: Report, stem: string, job: LayoutJob): Report {
    var written := LayoutFiles(stem, job);
    Report(before.log + LayoutLines(stem, job), before.folder + Files(written), before.written + written)
  }

  /** How one layout is reported: only error and success lines about its own
      stem, the PNG is asked for even when the PDF failed, each failing code
      gets its own line, the success line appears exactly when both codes are
      `Success`, and an exception ends the layout with one line. */
  lemma LayoutLinesSay(stem: string, job: LayoutJob)
    ensures var log := LayoutLines(stem, job);
      && 1 <= |log| <= 2
      && (forall o :: o in log ==>
            (o.PdfFailed? || o.PngFailed? || o.Exported? || o.Unexpected?) && o.stem == stem)
      && (|log| == 2 ==> job.pdf.Returns? && log[0] == PdfFailed(stem, job.pdf.result) && !log[1].PdfFailed?)
      && (Exported(stem) in log <==> Succeeds(job))
      && (forall x :: PdfFailed(stem, x) in log <==> x != Success && job.pdf == Returns(x))
      && (forall x :: PngFailed(stem, x) in log <==>
            x != Success && job.pdf.Returns? && job.png == Returns(x))
      && (forall e :: Unexpected(stem, e) in log <==>
            job.pdf == Raises(e) || (job.pdf.Returns? && job.png == Raises(e)))
  {
  }

  /** Only the stem's two files can be written, each at most once, and each
      exactly when its own call returned `Success`. */
  lemma LayoutFilesAre(stem: string, job: LayoutJob)
    ensures var written := LayoutFiles(stem, job);
      && (Pdf(stem) in written <==> job.pdf == Returns(Success))
      && (Png(stem) in written <==> job.pdf.Returns? && job.png == Returns(Success))
      && (forall w :: w in written ==> w == Pdf(stem) || w == Png(stem))
      && Distinct(written)
  {
  }

  /** The stem a valid policy gives a layout whose sanitized name is `base`:
      in rename mode the first free numbered stem, in replace mode the name
      itself, whatever the folder holds. */
  function ChosenStem(mode: Mode, base: string, folder: set<File>): string
    requires mode != Invalid
  {
    if mode == Rename then Stem(base, FirstFree(folder, base)) else base
  }

  /** How the loop names a layout under a valid policy, given the layout's
      name and the folder as the earlier layouts left it. */
  function Chooser(mode: Mode): (string, set<File>) -> string
    requires mode != Invalid
  {
    (name, folder) => ChosenStem(mode, Sanitize(name), folder)
  }

  /** The report once the header is printed and the loop has handled the
      first `n` layouts, naming each one with `choose`; `existing` is the
      folder before the loop. */
  function ExportFirst(choose: (string, set<File>) -> string, jobs: seq<LayoutJob>, n: nat, existing: set<File>): Report
    requires n <= |jobs|
  {
    if n == 0 then Report([Exporting(|jobs|)], existing, [])
    else
      var before := ExportFirst(choose, jobs, n - 1, existing);
      Step(before, choose(jobs[n - 1].name, before.folder), jobs[n - 1])
  }

  /** A whole run on a folder holding `existing`. The mode is only looked at
      inside the loop, so with no layouts it is never looked at. */
  function Run(setting: string, jobs: seq<LayoutJob>, existing: set<File>): Report {
    if jobs == [] then Report([NoLayouts], existing, [])
    else RunLoop(ParseMode(setting), setting, jobs, existing)
  }

  /** The header, the loop under `mode` and the closing banner, for a
      project with layouts: an invalid mode stops the loop at its first
      layout. */
  function RunLoop(mode: Mode, setting: string, jobs: seq<LayoutJob>, existing: set<File>): Report
    requires jobs != []
  {
    if mode == Invalid then
      Report([Exporting(|jobs|), InvalidMode(setting), Finished], existing, [])
    else
      var r := ExportFirst(Chooser(mode), jobs, |jobs|, existing);
      Report(r.log + [Finished], r.folder, r.written)
  }

  /** The `try` block for one layout, statement by statement: the two
      exporter calls on the paths chosen for it and the lines they cause. */
  method ExportLayout(stem: string, pdf: File, png: File, job: LayoutJob, folder: set<File>)
    returns (lines: seq<Outcome>, after: set<File>, wrote: seq<File>)
    requires pdf == Pdf(stem) && png == Png(stem)
    ensures lines == LayoutLines(stem, job) && wrote == LayoutFiles(stem, job)
    ensures after == folder + Files(wrote)
  {
    lines, after, wrote := [], folder, [];
    match job.pdf
    case Raises(e) =>
      lines := lines + [Unexpected(stem, e)];
    case Returns(p) =>
      if p != Success {
        lines := lines + [PdfFailed(stem, p)];
      } else {
        after, wrote := after + {pdf}, wrote + [pdf];
      }
      match job.png
      case Raises(e) =>
        lines := lines + [Unexpected(stem, e)];
      case Returns(q) =>
        if q != Success {
          lines := lines + [PngFailed(stem, q)];
        } else {
          after, wrote := after + {png}, wrote + [png];
        }
        if p == Success && q == Success {
          lines := lines + [Exported(stem)];
        }
  }

  /** The paths of one layout under a valid policy: its sanitized name,
      then, in rename mode, the first numbered stem whose two files are both
      absent. */
  method ChoosePaths(mode: Mode, job: LayoutJob, folder: set<File>)
    returns (stem: string, pdf: File, png: File)
    requires mode != Invalid
    ensures stem == Chooser(mode)(job.name, folder)
    ensures pdf == Pdf(stem) && png == Png(stem)
  {
    stem := Sanitize(job.name);
    pdf, png := Pdf(stem), Png(stem);
    if mode == Rename {
      stem, pdf, png := RenameUntilFree(stem, folder);
    }
  }

  /** One pass of the loop under a valid policy: choose the layout's paths
      against the folder the earlier layouts left, then export it. */
  method ExportNext(mode: Mode, jobs: seq<LayoutJob>, i: nat, existing: set<File>,
                    log: seq<Outcome>, folder: set<File>, written: seq<File>)
    returns (log': seq<Outcome>, folder': set<File>, written': seq<File>)
    requires mode != Invalid && i < |jobs|
    requires Report(log, folder, written) == ExportFirst(Chooser(mode), jobs, i, existing)
    ensures Report(log', folder', written') == ExportFirst(Chooser(mode), jobs, i + 1, existing)
  {
    var stem, pdf, png := ChoosePaths(mode, jobs[i], folder);
    var lines, wrote;
    lines, folder', wrote := ExportLayout(stem, pdf, png, jobs[i], folder);
    log', written' := log + lines, written + wrote;
  }

  /** The script's run, statement by statement: the warning for an empty
      project, or the loop. */
  method ExportAll(setting: string, jobs: seq<LayoutJob>, existing: set<File>)
    returns (log: seq<Outcome>, folder: set<File>, written: seq<File>)
    ensures Report(log, folder, written) == Run(setting, jobs, existing)
  {
    if jobs == [] {
      log, folder, written := [NoLayouts], existing, [];
      return;
    }
    // The script lowers the setting afresh at every pass; the value is the
    // same each time.
    log, folder, written := ExportLoop(ParseMode(setting), setting, jobs, existing);
  }

  /** The header, the loop over the layouts and the closing banner. */
  method ExportLoop(mode: Mode, setting: string, jobs: seq<LayoutJob>, existing: set<File>)
    returns (log: seq<Outcome>, folder: set<File>, written: seq<File>)
    requires jobs != []
    ensures Report(log, folder, written) == RunLoop(mode, setting, jobs, existing)
  {
    log, folder, written := [Exporting(|jobs|)], existing, [];
    var i := 0;
    while i < |jobs|
      invariant 0 <= i <= |jobs|
      invariant mode == Invalid ==> i == 0 && log == [Exporting(|jobs|)] && folder == existing && written == []
      invariant mode != Invalid ==> Report(log, folder, written) == ExportFirst(Chooser(mode), jobs, i, existing)
    {
      if mode == Invalid {
        log := log + [InvalidMode(setting)];
        break;
      }
      log, folder, written := ExportNext(mode, jobs, i, existing, log, folder, written);
      i := i + 1;
    }
    assert mode != Invalid ==> i == |jobs|;
    log := log + [Finished];
  }

  /** With no layouts only the warning is printed: the mode is never looked
      at and nothing is written. */
  lemma EmptyProjectOnlyWarns(setting: string, existing: set<File>)
    ensures Run(setting, [], existing) == Report([NoLayouts], existing, [])
  {
  }

  /** An invalid mode stops the loop at the first layout, before any
      exporter call; the header and the closing banner are still printed. */
  lemma InvalidModeStopsAtFirstLayout(setting: string, jobs: seq<LayoutJob>, existing: set<File>)
    requires ParseMode(setting) == Invalid && jobs != []
    ensures Run(setting, jobs, existing) ==
              Report([Exporting(|jobs|), InvalidMode(setting), Finished], existing, [])
  {
  }

  /** The folder is the folder before the loop plus what was written. */
  lemma {:induction false} FolderIsExistingPlusWritten(choose: (string, set<File>) -> string, jobs: seq<LayoutJob>, n: nat, existing: set<File>)
    requires n <= |jobs|
    ensures ExportFirst(choose, jobs, n, existing).folder ==
              existing + Files(ExportFirst(choose, jobs, n, existing).written)
  {
    if n == 0 {
      assert Files([]) == {};
    } else {
      FolderIsExistingPlusWritten(choose, jobs, n - 1, existing);
      var before := ExportFirst(choose, jobs, n - 1, existing);
      StepFolder(before, choose(jobs[n - 1].name, before.folder), jobs[n - 1], existing);
    }
  }

  lemma StepFolder(before: Report, stem: string, job: LayoutJob, existing: set<File>)
    requires before.folder == existing + Files(before.written)
    ensures Step(before, stem, job).folder == existing + Files(Step(before, stem, job).written)
  {
  }

  /** A way of naming layouts that always picks a stem with neither file in
      the folder. */
  ghost predicate PicksFreeStems(choose: (string, set<File>) -> string) {
    forall name, folder :: Free(folder, choose(name, folder))
  }

  /** The rename policy picks free stems. */
  lemma RenamePicksFreeStems()
    ensures PicksFreeStems(Chooser(Rename))
  {
    forall name, folder ensures Free(folder, Chooser(Rename)(name, folder)) {
      var base := Sanitize(name);
      FirstFreeIsLeast(folder, base);
      assert Chooser(Rename)(name, folder) == Stem(base, FirstFree(folder, base));
    }
  }

  /** When every stem is picked free, no file is written twice and no file
      that was there before is overwritten. */
  lemma FreeStemsNeverOverwrite(choose: (string, set<File>) -> string, jobs: seq<LayoutJob>, n: nat, existing: set<File>)
    requires PicksFreeStems(choose) && n <= |jobs|
    ensures Distinct(ExportFirst(choose, jobs, n, existing).written)
    ensures forall w :: w in ExportFirst(choose, jobs, n, existing).written ==> w !in existing
  {
    FreeStemsWriteDistinct(choose, jobs, n, existing);
    FreeStemsWriteNew(choose, jobs, n, existing);
  }

  lemma {:induction false} FreeStemsWriteDistinct(choose: (string, set<File>) -> string, jobs: seq<LayoutJob>, n: nat, existing: set<File>)
    requires PicksFreeStems(choose) && n <= |jobs|
    ensures Distinct(ExportFirst(choose, jobs, n, existing).written)
  {
    if n > 0 {
      FreeStemsWriteDistinct(choose, jobs, n - 1, existing);
      FolderIsExistingPlusWritten(choose, jobs, n - 1, existing);
      var before := ExportFirst(choose, jobs, n - 1, existing);
      StepDistinct(before, choose(jobs[n - 1].name, before.folder), jobs[n - 1], existing);
    }
  }

  lemma {:induction false} FreeStemsWriteNew(choose: (string, set<File>) -> string, jobs: seq<LayoutJob>, n: nat, existing: set<File>)
    requires PicksFreeStems(choose) && n <= |jobs|
    ensures forall w :: w in ExportFirst(choose, jobs, n, existing).written ==> w !in existing
    ensures existing <= ExportFirst(choose, jobs, n, existing).folder
  {
    if n > 0 {
      FreeStemsWriteNew(choose, jobs, n - 1, existing);
      var before := ExportFirst(choose, jobs, n - 1, existing);
      StepNew(before, choose(jobs[n - 1].name, before.folder), jobs[n - 1], existing);
    }
  }

  /** A layout exported under a free stem adds files not written before... */
  lemma StepDistinct(before: Report, stem: string, job: LayoutJob, existing: set<File>)
    requires Distinct(before.written)
    requires before.folder == existing + Files(before.written)
    requires Free(before.folder, stem)
    ensures Distinct(Step(before, stem, job).written)
  {
  }

  /** ... and files that were not in the folder before the loop. */
  lemma StepNew(before: Report, stem: string, job: LayoutJob, existing: set<File>)
    requires forall w :: w in before.written ==> w !in existing
    requires existing <= before.folder
    requires Free(before.folder, stem)
    ensures forall w :: w in Step(before, stem, job).written ==> w !in existing
    ensures existing <= Step(before, stem, job).folder
  {
  }


  /** In rename mode no file is written twice and no file that was there
      before is overwritten; in particular two layouts with the same name
      get different stems, because the second sees the first one's files. */
  lemma RenameNeverOverwrites(jobs: seq<LayoutJob>, existing: set<File>)
    ensures Distinct(ExportFirst(Chooser(Rename), jobs, |jobs|, existing).written)
    ensures forall w :: w in ExportFirst(Chooser(Rename), jobs, |jobs|, existing).written ==> w !in existing
  {
    RenamePicksFreeStems();
    FreeStemsNeverOverwrite(Chooser(Rename), jobs, |jobs|, existing);
  }

  /** When every stem `choose` picks is related by `related` to the layout's
      name, so is the stem of every file written. */
  lemma {:induction false} WrittenStemsRelated(choose: (string, set<File>) -> string, related: (string, string) -> bool,
                                               jobs: seq<LayoutJob>, n: nat, existing: set<File>)
    requires n <= |jobs|
    requires forall name, folder :: related(name, choose(name, folder))
    ensures forall w :: w in ExportFirst(choose, jobs, n, existing).written ==>
              exists i :: 0 <= i < n && related(jobs[i].name, w.stem)
  {
    if n > 0 {
      WrittenStemsRelated(choose, related, jobs, n - 1, existing);
      var before := ExportFirst(choose, jobs, n - 1, existing);
      var stem := choose(jobs[n - 1].name, before.folder);
      LayoutFilesAre(stem, jobs[n - 1]);
      assert related(jobs[n - 1].name, stem);
    }
  }

  /** `stem` is the sanitized `name` or one of its numbered stems. */
  ghost predicate NumberedFrom(name: string, stem: string) {
    exists k: nat :: stem == Stem(Sanitize(name), k)
  }

  /** The rename guarantees for a whole run: no file is written twice, none
      that was in the folder is overwritten, the folder gains exactly the
      files written, and each of them is named `base` or `base_k` after the
      sanitized name `base` of one of the layouts. */
  lemma RunRenameNeverOverwrites(setting: string, jobs: seq<LayoutJob>, existing: set<File>)
    requires ParseMode(setting) == Rename
    ensures Distinct(Run(setting, jobs, existing).written)
    ensures forall w :: w in Run(setting, jobs, existing).written ==> w !in existing
    ensures Run(setting, jobs, existing).folder == existing + Files(Run(setting, jobs, existing).written)
    ensures forall w :: w in Run(setting, jobs, existing).written ==>
              exists i, k: nat :: 0 <= i < |jobs| && w.stem == Stem(Sanitize(jobs[i].name), k)
  {
    if jobs == [] {
      assert Files([]) == {};
    } else {
      var choose := Chooser(Rename);
      var r := ExportFirst(choose, jobs, |jobs|, existing);
      assert Run(setting, jobs, existing).written == r.written;
      RenameNeverOverwrites(jobs, existing);
      FolderIsExistingPlusWritten(choose, jobs, |jobs|, existing);
      WrittenStemsRelated(choose, NumberedFrom, jobs, |jobs|, existing) by {
        forall name, folder ensures NumberedFrom(name, choose(name, folder)) {
          assert choose(name, folder) == Stem(Sanitize(name), FirstFree(folder, Sanitize(name)));
        }
      }
    }
  }

  /** A way of naming layouts that does not look at the folder. */
  ghost predicate IgnoresFolder(choose: (string, set<File>) -> string) {
    forall name, f1, f2 :: choose(name, f1) == choose(name, f2)
  }

  /** The replace policy names a layout by its sanitized name, whatever the
      folder holds. */
  lemma ReplaceKeepsSanitizedNames()
    ensures IgnoresFolder(Chooser(Replace))
    ensures forall name, folder :: Chooser(Replace)(name, folder) == Sanitize(name)
  {
  }

  /** What the loop prints and writes for the first `n` layouts when their
      names do not depend on the folder: the header, then each layout's own
      lines; and each layout's own files, in order. */
  function FixedLines(choose: (string, set<File>) -> string, jobs: seq<LayoutJob>, n: nat): seq<Outcome>
    requires n <= |jobs|
  {
    if n == 0 then [Exporting(|jobs|)]
    else FixedLines(choose, jobs, n - 1) + LayoutLines(choose(jobs[n - 1].name, {}), jobs[n - 1])
  }

  function FixedFiles(choose: (string, set<File>) -> string, jobs: seq<LayoutJob>, n: nat): seq<File>
    requires n <= |jobs|
  {
    if n == 0 then []
    else FixedFiles(choose, jobs, n - 1) + LayoutFiles(choose(jobs[n - 1].name, {}), jobs[n - 1])
  }

  /** When names do not depend on the folder, neither do the lines and the
      files. */
  lemma FixedNamesIgnoreFolder(choose: (string, set<File>) -> string, jobs: seq<LayoutJob>, n: nat, existing: set<File>)
    requires IgnoresFolder(choose) && n <= |jobs|
    ensures ExportFirst(choose, jobs, n, existing).log == FixedLines(choose, jobs, n)
    ensures ExportFirst(choose, jobs, n, existing).written == FixedFiles(choose, jobs, n)
  {
    FixedLinesIgnoreFolder(choose, jobs, n, existing);
    FixedFilesIgnoreFolder(choose, jobs, n, existing);
  }

  lemma {:induction false} FixedLinesIgnoreFolder(choose: (string, set<File>) -> string, jobs: seq<LayoutJob>, n: nat, existing: set<File>)
    requires IgnoresFolder(choose) && n <= |jobs|
    ensures ExportFirst(choose, jobs, n, existing).log == FixedLines(choose, jobs, n)
  {
    if n > 0 {
      FixedLinesIgnoreFolder(choose, jobs, n - 1, existing);
      var before := ExportFirst(choose, jobs, n - 1, existing);
      StepFixed(choose, before, jobs[n - 1]);
    }
  }

  lemma {:induction false} FixedFilesIgnoreFolder(choose: (string, set<File>) -> string, jobs: seq<LayoutJob>, n: nat, existing: set<File>)
    requires IgnoresFolder(choose) && n <= |jobs|
    ensures ExportFirst(choose, jobs, n, existing).written == FixedFiles(choose, jobs, n)
  {
    if n > 0 {
      FixedFilesIgnoreFolder(choose, jobs, n - 1, existing);
      var before := ExportFirst(choose, jobs, n - 1, existing);
      StepFixed(choose, before, jobs[n - 1]);
    }
  }

  lemma StepFixed(choose: (string, set<File>) -> string, before: Report, job: LayoutJob)
    requires IgnoresFolder(choose)
    ensures Step(before, choose(job.name, before.folder), job).log ==
              before.log + LayoutLines(choose(job.name, {}), job)
    ensures Step(before, choose(job.name, before.folder), job).written ==
              before.written + LayoutFiles(choose(job.name, {}), job)
  {
  }

  /** Each of those files is named after its layout. */
  lemma {:induction false} FixedFilesNamed(choose: (string, set<File>) -> string, jobs: seq<LayoutJob>, n: nat)
    requires n <= |jobs|
    ensures forall w :: w in FixedFiles(choose, jobs, n) ==>
              exists i :: 0 <= i < n && w.stem == choose(jobs[i].name, {})
  {
    if n > 0 {
      FixedFilesNamed(choose, jobs, n - 1);
      LayoutFilesAre(choose(jobs[n - 1].name, {}), jobs[n - 1]);
    }
  }

  /** In replace mode the files already present change nothing: the same
      lines are printed and the same files are written, and every written
      file carries a layout's sanitized name with no suffix. */
  lemma ReplaceIgnoresFolder(jobs: seq<LayoutJob>, e1: set<File>, e2: set<File>)
    ensures ExportFirst(Chooser(Replace), jobs, |jobs|, e1).log == ExportFirst(Chooser(Replace), jobs, |jobs|, e2).log
    ensures ExportFirst(Chooser(Replace), jobs, |jobs|, e1).written == ExportFirst(Chooser(Replace), jobs, |jobs|, e2).written
    ensures forall w :: w in ExportFirst(Chooser(Replace), jobs, |jobs|, e1).written ==>
              exists i :: 0 <= i < |jobs| && w.stem == Sanitize(jobs[i].name)
  {
    var choose := Chooser(Replace);
    ReplaceKeepsSanitizedNames();
    FixedNamesIgnoreFolder(choose, jobs, |jobs|, e1);
    FixedNamesIgnoreFolder(choose, jobs, |jobs|, e2);
    FixedFilesNamed(choose, jobs, |jobs|);
  }

  /** The replace guarantees for a whole run: the files already in the folder
      change neither the lines printed nor the files written, and each file
      written carries the sanitized name of one of the layouts. */
  lemma RunReplaceIgnoresFolder(setting: string, jobs: seq<LayoutJob>, e1: set<File>, e2: set<File>)
    requires ParseMode(setting) == Replace
    ensures Run(setting, jobs, e1).log == Run(setting, jobs, e2).log
    ensures Run(setting, jobs, e1).written == Run(setting, jobs, e2).written
    ensures forall w :: w in Run(setting, jobs, e1).written ==>
              exists i :: 0 <= i < |jobs| && w.stem == Sanitize(jobs[i].name)
  {
    if jobs != [] {
      ReplaceIgnoresFolder(jobs, e1, e2);
    }
  }

  /** Running again in replace mode over the files of a first run leaves the
      folder as the first run left it: each file is overwritten in place. */
  lemma ReplaceRerunKeepsFolder(setting: string, jobs: seq<LayoutJob>, existing: set<File>)
    requires ParseMode(setting) == Replace
    ensures Run(setting, jobs, Run(setting, jobs, existing).folder).folder == Run(setting, jobs, existing).folder
  {
    if jobs != [] {
      var choose := Chooser(Replace);
      var first := ExportFirst(choose, jobs, |jobs|, existing);
      FolderIsExistingPlusWritten(choose, jobs, |jobs|, existing);
      FolderIsExistingPlusWritten(choose, jobs, |jobs|, first.folder);
      ReplaceIgnoresFolder(jobs, existing, first.folder);
    }
  }

  /** Each layout prints one success line exactly when both of its exports
      succeeded, and one unexpected-error line exactly when a call raised. */
  lemma LayoutLinesCount(stem: string, job: LayoutJob)
    ensures Count(LayoutLines(stem, job), IsSuccessLine) == if Succeeds(job) then 1 else 0
    ensures Count(LayoutLines(stem, job), IsUnexpectedLine) == if RaisesSomewhere(job) then 1 else 0
  {
    var log := LayoutLines(stem, job);
    LayoutLinesSay(stem, job);
    if |log| == 2 {
      assert log == [log[0]] + [log[1]];
      CountAppend([log[0]], [log[1]], IsSuccessLine);
      CountAppend([log[0]], [log[1]], IsUnexpectedLine);
    }
  }

  /** Every layout is processed, whatever happened to the ones before it:
      there is one success line per layout whose two exports both succeeded,
      and one unexpected-error line per layout whose export raised. */
  lemma {:induction false} EveryLayoutReported(choose: (string, set<File>) -> string, jobs: seq<LayoutJob>, n: nat, existing: set<File>)
    requires n <= |jobs|
    ensures Count(ExportFirst(choose, jobs, n, existing).log, IsSuccessLine) == Count(jobs[..n], Succeeds)
    ensures Count(ExportFirst(choose, jobs, n, existing).log, IsUnexpectedLine) == Count(jobs[..n], RaisesSomewhere)
  {
    if n == 0 {
      assert [Exporting(|jobs|)][1..] == [];
    } else {
      assert jobs[..n] == jobs[..n - 1] + [jobs[n - 1]];
      CountAppend(jobs[..n - 1], [jobs[n - 1]], Succeeds);
      CountAppend(jobs[..n - 1], [jobs[n - 1]], RaisesSomewhere);
      EveryLayoutReported(choose, jobs, n - 1, existing);
      var before := ExportFirst(choose, jobs, n - 1, existing);
      StepCounts(before, choose(jobs[n - 1].name, before.folder), jobs[n - 1]);
    }
  }

  lemma StepCounts(before: Report, stem: string, job: LayoutJob)
    ensures Count(Step(before, stem, job).log, IsSuccessLine) ==
              Count(before.log, IsSuccessLine) + if Succeeds(job) then 1 else 0
    ensures Count(Step(before, stem, job).log, IsUnexpectedLine) ==
              Count(before.log, IsUnexpectedLine) + if RaisesSomewhere(job) then 1 else 0
  {
    LayoutLinesCount(stem, job);
    CountAppend(before.log, LayoutLines(stem, job), IsSuccessLine);
    CountAppend(before.log, LayoutLines(stem, job), IsUnexpectedLine);
  }
}
