/** The results of one adapter (tool) job and their text renderings. */
module Results {
  import opened Wrappers
  import opened Strings
  import Adapters

  /** A file an adapter produced. */
  datatype FileInfo = FileInfo(
    description: string,
    fileName: string,
    mimeType: string,
    localPath: string,
    publicUrl: string)

  /** `JobResults`; `err` is the Go error's message, `None` for a nil error. */
  datatype JobResults = JobResults(
    jobId: string,
    adapterName: string,
    resultTexts: seq<string>,
    resultFiles: seq<FileInfo>,
    finalState: string,
    err: Option<string>)

  function NewJobResults(jobId: string, adapterName: string): (r: JobResults)
    ensures r.jobId == jobId && r.adapterName == adapterName
    ensures r.resultTexts == [] && r.resultFiles == []
    ensures r.finalState == Adapters.Unknown && r.err.None?
  {
    JobResults(jobId, adapterName, [], [], Adapters.Unknown, None)
  }

  /** Every result text followed by `joinBy`, the last one included. */
  function GetResultText(jr: JobResults, joinBy: string): (r: string)
    ensures jr.resultTexts == [] ==> r == ""
    ensures jr.resultTexts != [] ==> r == Join(jr.resultTexts, joinBy) + joinBy
  {
    if jr.resultTexts == [] then ""
    else
      TerminatedIsJoinThenSep(jr.resultTexts, joinBy);
      Terminated(jr.resultTexts, joinBy)
  }

  function GetResultFiles(jr: JobResults): (r: seq<FileInfo>)
    ensures r == jr.resultFiles
  {
    jr.resultFiles
  }

  function AddResultText(jr: JobResults, text: string): (r: JobResults)
    ensures r.resultTexts == jr.resultTexts + [text]
    ensures r == jr.(resultTexts := r.resultTexts)
  {
    jr.(resultTexts := jr.resultTexts + [text])
  }

  function AddResultFile(jr: JobResults, file: FileInfo): (r: JobResults)
    ensures r.resultFiles == jr.resultFiles + [file]
    ensures r == jr.(resultFiles := r.resultFiles)
  {
    jr.(resultFiles := jr.resultFiles + [file])
  }

  /** `GetResultFiles` reads back what the mutators wrote: nothing for new
      results, one more file per added file, and no change for an added text. */
  lemma ResultFilesTrackMutators(jr: JobResults, jobId: string, adapterName: string, text: string, file: FileInfo)
    ensures GetResultFiles(NewJobResults(jobId, adapterName)) == []
    ensures GetResultFiles(AddResultFile(jr, file)) == GetResultFiles(jr) + [file]
    ensures GetResultFiles(AddResultText(jr, text)) == GetResultFiles(jr)
  {
  }

  /** Adding a text and rendering extends the previous rendering by that text and one separator. */
  lemma AddResultTextRendering(jr: JobResults, text: string, joinBy: string)
    ensures GetResultText(AddResultText(jr, text), joinBy) == GetResultText(jr, joinBy) + text + joinBy
  {
    TerminatedAppend(jr.resultTexts, text, joinBy);
  }

  /** One line of a file block: the caption, the quoted value and a line break. */
  function Line(caption: string, value: string): string {
    caption + value + "'\n"
  }

  /** The four-line block for the `n`-th file (counting from 1). */
  function FileBlock(n: nat, f: FileInfo): string {
    Line(NatToString(n) + ". File Name: '", f.fileName)
    + Line("  - Mime Type: '", f.mimeType)
    + Line("  - Local File Path: '", f.localPath)
    + Line("  - Public Url: '", f.publicUrl)
  }

  /** The blocks of all files, numbered 1..n in order. */
  function FilesText(files: seq<FileInfo>): string
    decreases |files|
  {
    if files == [] then ""
    else FilesText(files[..|files| - 1]) + FileBlock(|files|, files[|files| - 1])
  }

  /** `GetResultFilesText`, as the Go loop builds it. */
  method GetResultFilesText(jr: JobResults) returns (joined: string)
    ensures joined == FilesText(jr.resultFiles)
  {
    joined := "";
    var n := 0;
    while n < |jr.resultFiles|
      invariant 0 <= n <= |jr.resultFiles|
      invariant joined == FilesText(jr.resultFiles[..n])
    {
      var f := jr.resultFiles[n];
      assert jr.resultFiles[..n + 1][..n] == jr.resultFiles[..n];
      joined := joined + FileBlock(n + 1, f);
      n := n + 1;
    }
    assert jr.resultFiles[..n] == jr.resultFiles;
  }

  /** The rendering starts with the block of the first file, numbered 1. */
  lemma {:induction false} FilesTextStartsWithFirstBlock(files: seq<FileInfo>)
    requires |files| > 0
    ensures HasPrefix(FilesText(files), FileBlock(1, files[0]))
    decreases |files|
  {
    var b := FileBlock(1, files[0]);
    if |files| > 1 {
      var init := files[..|files| - 1];
      FilesTextStartsWithFirstBlock(init);
      assert init[0] == files[0];
      assert FilesText(files) == FilesText(init) + FileBlock(|files|, files[|files| - 1]);
      PrefixOfAppend(FilesText(init), FileBlock(|files|, files[|files| - 1]), b);
    } else {
      assert files[..0] == [];
      assert FilesText(files) == "" + b;
    }
  }

  /** The number of occurrences of `c` in `s`. */
  function CountChar(s: string, c: char): nat
    decreases |s|
  {
    if s == [] then 0 else (if s[0] == c then 1 else 0) + CountChar(s[1..], c)
  }

  lemma {:induction false} CountCharAppend(a: string, b: string, c: char)
    ensures CountChar(a + b, c) == CountChar(a, c) + CountChar(b, c)
    decreases |a|
  {
    if a == [] {
      assert a + b == b;
    } else {
      assert (a + b)[1..] == a[1..] + b;
      CountCharAppend(a[1..], b, c);
    }
  }

  lemma {:induction false} CountCharAbsent(s: string, c: char)
    requires c !in s
    ensures CountChar(s, c) == 0
    decreases |s|
  {
    if s != [] {
      CountCharAbsent(s[1..], c);
    }
  }

  lemma LineHasOneBreak(caption: string, value: string)
    requires '\n' !in caption && '\n' !in value
    ensures CountChar(Line(caption, value), '\n') == 1
  {
    CountCharAppend(caption, value, '\n');
    CountCharAppend(caption + value, "'\n", '\n');
    CountCharAbsent(caption, '\n');
    CountCharAbsent(value, '\n');
    assert "'\n"[1..] == "\n";
    assert "\n"[1..] == "";
  }

  lemma BlockHasFourBreaks(n: nat, f: FileInfo)
    requires '\n' !in f.fileName && '\n' !in f.mimeType && '\n' !in f.localPath && '\n' !in f.publicUrl
    ensures CountChar(FileBlock(n, f), '\n') == 4
  {
    var digits := NatToString(n);
    assert forall k :: 0 <= k < |digits| ==> IsDigit(digits[k]);
    assert '\n' !in digits;
    var caption := digits + ". File Name: '";
    assert '\n' !in caption;
    var l1 := Line(caption, f.fileName);
    var l2 := Line("  - Mime Type: '", f.mimeType);
    var l3 := Line("  - Local File Path: '", f.localPath);
    var l4 := Line("  - Public Url: '", f.publicUrl);
    LineHasOneBreak(caption, f.fileName);
    LineHasOneBreak("  - Mime Type: '", f.mimeType);
    LineHasOneBreak("  - Local File Path: '", f.localPath);
    LineHasOneBreak("  - Public Url: '", f.publicUrl);
    CountCharAppend(l1, l2, '\n');
    CountCharAppend(l1 + l2, l3, '\n');
    CountCharAppend(l1 + l2 + l3, l4, '\n');
  }

  /** When no file field holds a line break, the rendering has exactly four lines per file. */
  lemma {:induction false} FilesTextLineCount(files: seq<FileInfo>)
    requires forall i :: 0 <= i < |files| ==>
      '\n' !in files[i].fileName && '\n' !in files[i].mimeType &&
      '\n' !in files[i].localPath && '\n' !in files[i].publicUrl
    ensures CountChar(FilesText(files), '\n') == 4 * |files|
    decreases |files|
  {
    if files != [] {
      var init := files[..|files| - 1];
      var f := files[|files| - 1];
      FilesTextLineCount(init);
      CountCharAppend(FilesText(init), FileBlock(|files|, f), '\n');
      BlockHasFourBreaks(|files|, f);
    }
  }
}
