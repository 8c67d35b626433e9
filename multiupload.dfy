/**
  The multi-file upload page: choosing Excel files, and the batch that
  uploads, optimizes and saves them one after another before deciding where
  to go next. Each file's three requests are summed up by one `Outcome`, so
  the loop's control flow is modelled exactly while the server stays opaque.
*/
module MultiUpload {
  import opened Values
  import opened Strings
  import opened Lists
  import opened Schema

  /** What the three requests for one file came to. */
  datatype Outcome =
    | UploadNotOk                                      // the upload answered `success: false` (the backend refuses with a 400 instead)
    | Throws                                           // the upload, the optimization or the save raised
    | Ok(data: InputData, result: OptResult, id: string) // parsed data, optimization result, id of the saved scenario

  /** The toasts the page shows, in order. */
  datatype Notice =
    | SomeFilesSkipped
    | NoFileSelected
    | UploadFailed(fileName: string)
    | Completed(scenarioName: string, done: nat, total: nat)
    | CreatedOne
    | ProcessFailed

  datatype Destination = CompareWith(ids: seq<string>) | ScenariosPage

  /** The files a selection keeps: those whose names end in `.xlsx` or `.xls` (case-sensitive). */
  function ExcelFiles(selected: seq<string>): seq<string> {
    Filter(selected, HasExcelExtension)
  }

  /**
    The kept files are exactly the Excel files of the selection, and nothing
    is dropped exactly when every file is one; a single file is kept exactly
    when it is one.
  */
  lemma ExcelFilesMembers(selected: seq<string>)
    ensures forall f :: f in ExcelFiles(selected) <==> f in selected && HasExcelExtension(f)
    ensures |ExcelFiles(selected)| == |selected| <==> forall f :: f in selected ==> HasExcelExtension(f)
    ensures |selected| == 1 ==> ExcelFiles(selected) == if HasExcelExtension(selected[0]) then selected else []
  {
    FilterMembers(selected, HasExcelExtension);
  }

  /** Selection order and repeated files are kept: the filter splits over concatenation. */
  lemma ExcelFilesAppend(a: seq<string>, b: seq<string>)
    ensures ExcelFiles(a + b) == ExcelFiles(a) + ExcelFiles(b)
  {
    FilterAppend(a, b, HasExcelExtension);
  }

  /** The scenario saved for a file: its name without the Excel extension, a description naming the file. */
  function SavedScenario(fileName: string, data: InputData, result: OptResult, id: string): (s: Scenario)
    ensures s.id == id && s.inputData == data && s.results == Some(result)
    ensures s.description == "Auto-created from " + fileName
    ensures |s.name| <= |fileName| && fileName[..|s.name|] == s.name
    ensures s.name == StripExcelExtension(fileName)
    ensures EndsWithIgnoringCase(fileName, ".xlsx") ==> s.name == fileName[..|fileName| - 5]
    ensures !EndsWithIgnoringCase(fileName, ".xlsx") && EndsWithIgnoringCase(fileName, ".xls") ==> s.name == fileName[..|fileName| - 4]
    ensures !EndsWithIgnoringCase(fileName, ".xlsx") && !EndsWithIgnoringCase(fileName, ".xls") ==> s.name == fileName
  {
    Scenario(id, StripExcelExtension(fileName), "Auto-created from " + fileName, data, Some(result))
  }

  /** The state of the batch after some files: scenarios saved, toasts shown, and whether a request raised. */
  datatype Batch = Batch(saved: seq<Scenario>, notices: seq<Notice>, failed: bool)

  /** The batch after the first `n` files, stopping for good at the first request that raises. */
  function Run(files: seq<string>, outcomes: seq<Outcome>, n: nat): Batch
    requires n <= |files| == |outcomes|
  {
    if n == 0 then Batch([], [], false)
    else
      var b := Run(files, outcomes, n - 1);
      if b.failed then b else Step(b, files[n - 1], outcomes[n - 1], n - 1, |files|)
  }

  /** One iteration of the loop, for file number `i` out of `total`. */
  function Step(b: Batch, fileName: string, o: Outcome, i: nat, total: nat): Batch {
    match o
    case UploadNotOk => Batch(b.saved, b.notices + [UploadFailed(fileName)], false)
    case Throws => Batch(b.saved, b.notices, true)
    case Ok(data, result, id) =>
      var s := SavedScenario(fileName, data, result, id);
      Batch(b.saved + [s], b.notices + [Completed(s.name, i + 1, total)], false)
  }

  /** Where a finished batch goes: comparison for two or more scenarios, the scenario list for one, nowhere for none. */
  function Classify(saved: seq<Scenario>): (d: Option<Destination>)
    ensures |saved| >= 2 <==> d.Some? && d.value.CompareWith?
    ensures d.Some? && d.value.CompareWith? ==> |d.value.ids| == |saved| && forall i :: 0 <= i < |saved| ==> d.value.ids[i] == saved[i].id
    ensures |saved| == 1 <==> d == Some(ScenariosPage)
    ensures |saved| == 0 <==> d.None?
  {
    if |saved| >= 2 then Some(CompareWith(seq(|saved|, i requires 0 <= i < |saved| => saved[i].id)))
    else if |saved| == 1 then Some(ScenariosPage)
    else None
  }

  class UploadPage {
    var files: seq<string>
    var uploading: bool
    var uploadedScenarios: seq<Scenario>
    var notices: seq<Notice>
    var navigation: Option<Destination>

    constructor ()
      ensures files == [] && !uploading && uploadedScenarios == [] && notices == [] && navigation == None
    {
      files := [];
      uploading := false;
      uploadedScenarios := [];
      notices := [];
      navigation := None;
    }

    /** `handleFilesSelect`: keep the Excel files, and warn when any file was dropped. */
    method HandleFilesSelect(selected: seq<string>)
      modifies this
      ensures files == ExcelFiles(selected)
      ensures notices == old(notices) + if |files| != |selected| then [SomeFilesSkipped] else []
      ensures uploading == old(uploading) && uploadedScenarios == old(uploadedScenarios) && navigation == old(navigation)
    {
      var excel := ExcelFiles(selected);
      if |excel| != |selected| {
        notices := notices + [SomeFilesSkipped];
      }
      files := excel;
    }

    /** `removeFile(index)`. */
    method RemoveFile(index: int)
      modifies this
      ensures files == RemoveAt(old(files), index)
      ensures uploading == old(uploading) && uploadedScenarios == old(uploadedScenarios)
      ensures notices == old(notices) && navigation == old(navigation)
    {
      files := RemoveAt(files, index);
    }

    /**
      `handleUploadAll`, with `outcomes[i]` standing for the requests made for
      `files[i]`. An empty selection is refused before any request. Otherwise
      the files are processed in order as `Run` describes; a raised request
      ends the batch with an error and nothing recorded, and a completed batch
      records its scenarios and goes where `Classify` says. The busy flag is
      cleared either way.
    */
    method HandleUploadAll(outcomes: seq<Outcome>)
      requires |outcomes| == |files|
      modifies this
      ensures files == old(files)
      ensures old(files) == [] ==>
        && notices == old(notices) + [NoFileSelected]
        && uploading == old(uploading) && uploadedScenarios == old(uploadedScenarios) && navigation == old(navigation)
      ensures old(files) != [] ==> !uploading
      ensures old(files) != [] && Run(files, outcomes, |files|).failed ==>
        && notices == old(notices) + Run(files, outcomes, |files|).notices + [ProcessFailed]
        && uploadedScenarios == old(uploadedScenarios) && navigation == old(navigation)
      ensures old(files) != [] && !Run(files, outcomes, |files|).failed ==>
        var saved := Run(files, outcomes, |files|).saved;
        && uploadedScenarios == saved
        && notices == old(notices) + Run(files, outcomes, |files|).notices + (if |saved| == 1 then [CreatedOne] else [])
        && navigation == (if Classify(saved).Some? then Classify(saved) else old(navigation))
    {
      if |files| == 0 {
        notices := notices + [NoFileSelected];
        return;
      }
      uploading := true;
      var saved, log, failed := ProcessFiles(outcomes);
      notices := notices + log;
      if failed {
        notices := notices + [ProcessFailed];
      } else {
        uploadedScenarios := saved;
        if |saved| >= 2 {
          navigation := Classify(saved);
        } else if |saved| == 1 {
          notices := notices + [CreatedOne];
          navigation := Some(ScenariosPage);
        }
      }
      uploading := false;
    }

    /**
      The loop of `handleUploadAll`: each file in turn, stopping at the first
      whose requests raise; it returns the scenarios saved, the toasts shown
      along the way and whether it stopped early.
    */
    method ProcessFiles(outcomes: seq<Outcome>) returns (saved: seq<Scenario>, log: seq<Notice>, failed: bool)
      requires |outcomes| == |files|
      ensures Batch(saved, log, failed) == Run(files, outcomes, |files|)
    {
      saved, log, failed := [], [], false;
      var i := 0;
      while i < |files|
        invariant 0 <= i <= |files|
        invariant Run(files, outcomes, i) == Batch(saved, log, false)
        invariant !failed
      {
        var fileName := files[i];
        if outcomes[i].Throws? {
          failed := true;
          RunStaysFailed(files, outcomes, i + 1, |files|);
          return;
        } else if outcomes[i].UploadNotOk? {
          log := log + [UploadFailed(fileName)];
        } else {
          var s := SavedScenario(fileName, outcomes[i].data, outcomes[i].result, outcomes[i].id);
          saved := saved + [s];
          log := log + [Completed(s.name, i + 1, |files|)];
        }
        i := i + 1;
      }
    }
  }

  // ===========================================================================
  // What a batch does, file by file

  lemma {:induction false} RunStaysFailed(files: seq<string>, outcomes: seq<Outcome>, n: nat, m: nat)
    requires n <= m <= |files| == |outcomes|
    requires Run(files, outcomes, n).failed
    ensures Run(files, outcomes, m) == Run(files, outcomes, n)
  {
    if m > n {
      RunStaysFailed(files, outcomes, n, m - 1);
    }
  }

  /** How many files the batch gets through: up to, not including, the first one whose requests raise. */
  function Processed(outcomes: seq<Outcome>, n: nat): (k: nat)
    requires n <= |outcomes|
    ensures k <= n
    ensures forall j :: 0 <= j < k ==> !outcomes[j].Throws?
    ensures k < n ==> outcomes[k].Throws?
  {
    if n == 0 then 0
    else
      var p := Processed(outcomes, n - 1);
      if p < n - 1 then p else if outcomes[n - 1].Throws? then n - 1 else n
  }

  /** The scenarios saved for the first `k` files, in file order: one for each file whose requests succeeded. */
  function Oks(files: seq<string>, outcomes: seq<Outcome>, k: nat): (r: seq<Scenario>)
    requires k <= |files| == |outcomes|
    ensures |r| <= k
  {
    if k == 0 then []
    else
      var o := outcomes[k - 1];
      Oks(files, outcomes, k - 1) + if o.Ok? then [SavedScenario(files[k - 1], o.data, o.result, o.id)] else []
  }

  /** The toast shown for file `j`: its upload failure, or its completion with progress `(j+1)/N`. */
  function NoticeFor(files: seq<string>, outcomes: seq<Outcome>, j: nat): Notice
    requires j < |files| == |outcomes|
  {
    if outcomes[j].Ok? then Completed(StripExcelExtension(files[j]), j + 1, |files|)
    else UploadFailed(files[j])
  }

  /**
    After `n` files the batch has failed exactly when one of them raised
    (`Processed` stops short of `n` exactly at the first that did); it
    has saved one scenario per successful file before that point, in order,
    skipping files whose upload was refused; and it has shown one toast per
    file it got through.
  */
  lemma {:induction false} RunSpec(files: seq<string>, outcomes: seq<Outcome>, n: nat)
    requires n <= |files| == |outcomes|
    ensures Run(files, outcomes, n).failed <==> Processed(outcomes, n) < n
    ensures Run(files, outcomes, n).saved == Oks(files, outcomes, Processed(outcomes, n))
    ensures |Run(files, outcomes, n).notices| == Processed(outcomes, n)
  {
    if n > 0 {
      RunSpec(files, outcomes, n - 1);
      var b := Run(files, outcomes, n - 1);
      if b.failed {
        assert Processed(outcomes, n) == Processed(outcomes, n - 1);
      } else {
        assert Processed(outcomes, n - 1) == n - 1;
        if outcomes[n - 1].Throws? {
          assert Processed(outcomes, n) == n - 1;
        } else {
          assert Processed(outcomes, n) == n;
        }
      }
    }
  }

  /** The toasts of the files the batch got through, in file order. */
  lemma {:induction false} RunNotices(files: seq<string>, outcomes: seq<Outcome>, n: nat)
    requires n <= |files| == |outcomes|
    ensures |Run(files, outcomes, n).notices| == Processed(outcomes, n)
    ensures forall j :: 0 <= j < Processed(outcomes, n) ==> Run(files, outcomes, n).notices[j] == NoticeFor(files, outcomes, j)
  {
    RunSpec(files, outcomes, n);
    if n > 0 {
      RunNotices(files, outcomes, n - 1);
      RunNoticesStep(files, outcomes, n);
    }
  }

  /** One more file: a failed batch stays as it was, and otherwise the file's own toast, if any, comes last. */
  lemma RunNoticesStep(files: seq<string>, outcomes: seq<Outcome>, n: nat)
    requires 0 < n <= |files| == |outcomes|
    requires |Run(files, outcomes, n - 1).notices| == Processed(outcomes, n - 1)
    requires forall j :: 0 <= j < Processed(outcomes, n - 1) ==> Run(files, outcomes, n - 1).notices[j] == NoticeFor(files, outcomes, j)
    ensures |Run(files, outcomes, n).notices| == Processed(outcomes, n)
    ensures forall j :: 0 <= j < Processed(outcomes, n) ==> Run(files, outcomes, n).notices[j] == NoticeFor(files, outcomes, j)
  {
    RunSpec(files, outcomes, n - 1);
    RunSpec(files, outcomes, n);
    var b := Run(files, outcomes, n - 1);
    if b.failed {
      assert Processed(outcomes, n) == Processed(outcomes, n - 1);
    } else if outcomes[n - 1].Throws? {
      assert Processed(outcomes, n) == n - 1 == Processed(outcomes, n - 1);
      assert Run(files, outcomes, n).notices == b.notices;
    } else {
      assert Processed(outcomes, n - 1) == n - 1 && Processed(outcomes, n) == n;
      assert Run(files, outcomes, n).notices == b.notices + [NoticeFor(files, outcomes, n - 1)];
    }
  }

  /** The batch never saves more scenarios than there are files, and a batch with no raise saves one per successful file. */
  lemma SavedBound(files: seq<string>, outcomes: seq<Outcome>)
    requires |files| == |outcomes|
    ensures |Run(files, outcomes, |files|).saved| <= |files|
    ensures !Run(files, outcomes, |files|).failed ==> Run(files, outcomes, |files|).saved == Oks(files, outcomes, |files|)
  {
    RunSpec(files, outcomes, |files|);
  }

  /**
    A refused upload affects only its own file. Turning refusal `j` into a
    success changes neither whether the batch fails nor how many files it
    gets through. If the batch reaches file `j`, the new scenario is inserted
    after the scenarios of the earlier files, and every other saved scenario
    stays where it was.
  */
  lemma RefusedUploadSkipped(files: seq<string>, outcomes: seq<Outcome>, j: nat, data: InputData, result: OptResult, id: string)
    requires |files| == |outcomes| && j < |files| && outcomes[j] == UploadNotOk
    ensures var n := |files|;
      var before := Run(files, outcomes, n);
      var after := Run(files, outcomes[j := Ok(data, result, id)], n);
      var m := |Oks(files, outcomes, j)|;
      && after.failed == before.failed
      && |after.notices| == |before.notices|
      && (Processed(outcomes, n) <= j ==> after.saved == before.saved)
      && (j < Processed(outcomes, n) ==>
            m <= |before.saved|
            && after.saved == before.saved[..m] + [SavedScenario(files[j], data, result, id)] + before.saved[m..])
  {
    var n := |files|;
    var outcomes' := outcomes[j := Ok(data, result, id)];
    RunSpec(files, outcomes, n);
    RunSpec(files, outcomes', n);
    ProcessedSameThrows(outcomes, outcomes', n);
    var p := Processed(outcomes, n);
    if p <= j {
      OksSamePrefix(files, outcomes, outcomes', p);
    } else {
      OksAfterRefusal(files, outcomes, j, data, result, id, p);
    }
  }

  /** Only which files raise decides how far the batch gets. */
  lemma {:induction false} ProcessedSameThrows(o1: seq<Outcome>, o2: seq<Outcome>, n: nat)
    requires n <= |o1| == |o2|
    requires forall i :: 0 <= i < n ==> (o1[i].Throws? <==> o2[i].Throws?)
    ensures Processed(o1, n) == Processed(o2, n)
  {
    if n > 0 {
      ProcessedSameThrows(o1, o2, n - 1);
    }
  }

  lemma {:induction false} OksSamePrefix(files: seq<string>, o1: seq<Outcome>, o2: seq<Outcome>, k: nat)
    requires k <= |files| == |o1| == |o2|
    requires forall i :: 0 <= i < k ==> o1[i] == o2[i]
    ensures Oks(files, o1, k) == Oks(files, o2, k)
  {
    if k > 0 {
      OksSamePrefix(files, o1, o2, k - 1);
    }
  }

  /** After a refusal turned into a success, the scenarios up to file `k` gain that file's scenario in its place. */
  lemma {:induction false} OksAfterRefusal(files: seq<string>, outcomes: seq<Outcome>, j: nat, data: InputData, result: OptResult, id: string, k: nat)
    requires j < k <= |files| == |outcomes| && outcomes[j] == UploadNotOk
    ensures var m := |Oks(files, outcomes, j)|;
      var a := Oks(files, outcomes, k);
      m <= |a| && Oks(files, outcomes[j := Ok(data, result, id)], k) == a[..m] + [SavedScenario(files[j], data, result, id)] + a[m..]
    decreases k
  {
    if k == j + 1 {
      OksAtRefusal(files, outcomes, j, data, result, id);
    } else {
      OksAfterRefusal(files, outcomes, j, data, result, id, k - 1);
      OksLaterFile(files, outcomes, j, data, result, id, k);
    }
  }

  /** Up to and including the refused file itself. */
  lemma OksAtRefusal(files: seq<string>, outcomes: seq<Outcome>, j: nat, data: InputData, result: OptResult, id: string)
    requires j < |files| == |outcomes| && outcomes[j] == UploadNotOk
    ensures Oks(files, outcomes, j + 1) == Oks(files, outcomes, j)
    ensures Oks(files, outcomes[j := Ok(data, result, id)], j + 1) == Oks(files, outcomes, j) + [SavedScenario(files[j], data, result, id)]
  {
    OksSamePrefix(files, outcomes, outcomes[j := Ok(data, result, id)], j);
  }

  /** A file after the refused one adds the same scenario, if any, to both batches. */
  lemma OksLaterFile(files: seq<string>, outcomes: seq<Outcome>, j: nat, data: InputData, result: OptResult, id: string, k: nat)
    requires j + 1 < k <= |files| == |outcomes|
    requires var m := |Oks(files, outcomes, j)|;
      var a := Oks(files, outcomes, k - 1);
      m <= |a| && Oks(files, outcomes[j := Ok(data, result, id)], k - 1) == a[..m] + [SavedScenario(files[j], data, result, id)] + a[m..]
    ensures var m := |Oks(files, outcomes, j)|;
      var a := Oks(files, outcomes, k);
      m <= |a| && Oks(files, outcomes[j := Ok(data, result, id)], k) == a[..m] + [SavedScenario(files[j], data, result, id)] + a[m..]
  {
    var outcomes' := outcomes[j := Ok(data, result, id)];
    var m := |Oks(files, outcomes, j)|;
    var a := Oks(files, outcomes, k - 1);
    var o := outcomes[k - 1];
    assert outcomes'[k - 1] == o;
    var e := if o.Ok? then [SavedScenario(files[k - 1], o.data, o.result, o.id)] else [];
    assert Oks(files, outcomes, k) == a + e;
    assert (a + e)[..m] == a[..m] && (a + e)[m..] == a[m..] + e;
  }
}
