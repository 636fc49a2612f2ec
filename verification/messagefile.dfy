/** Files attached to messages, and the finders of a message's file list. */
module MessageFiles {
  import opened Wrappers
  import opened Strings
  import opened Seqs
  import Adapters

  const FileIdPrefix: string := "amf"
  const FileIdLength: nat := 16

  /** The length is counted in UTF-8 bytes, as Go's `len` counts it. */
  predicate IsMessageFileID(id: string) {
    Utf8Length(id) == FileIdLength + |FileIdPrefix| + 1 && HasPrefix(id, FileIdPrefix)
  }

  /** The ids are 20 bytes starting "amf"; for ASCII ids, 20 characters. */
  lemma MessageFileIdShape(id: string)
    ensures IsMessageFileID(id) <==> Utf8Length(id) == 20 && |id| >= 3 && id[..3] == "amf"
    ensures IsAscii(id) ==> (IsMessageFileID(id) <==> |id| == 20 && id[..3] == "amf")
    ensures IsMessageFileID(id) ==> 5 <= |id| <= 20
  {
    Utf8LengthBounds(id);
  }

  datatype MessageFile = MessageFile(
    id: string,
    fileName: string,
    mimeType: string,
    url: string,
    localFilePath: string,
    fileSize: int,
    metaData: map<string, Adapters.Value>)

  /** `NewAIgencyMessageFile`; the freshly generated id is a parameter. */
  function NewMessageFile(id: string, fileName: string, localFilePath: string, mimeType: string, url: string): (f: MessageFile)
    ensures f.id == id && f.fileName == fileName && f.localFilePath == localFilePath
    ensures f.mimeType == mimeType && f.url == url && f.fileSize == 0 && f.metaData == map[]
  {
    MessageFile(id, fileName, mimeType, url, localFilePath, 0, map[])
  }

  function AddFile(files: seq<MessageFile>, f: MessageFile): (r: seq<MessageFile>)
    ensures |r| == |files| + 1 && r[..|files|] == files && r[|files|] == f
  {
    files + [f]
  }

  /** The Go test `HasPrefix || HasSuffix || Contains`. */
  predicate MatchesPattern(s: string, pattern: string) {
    HasPrefix(s, pattern) || HasSuffix(s, pattern) || Contains(s, pattern)
  }

  lemma MatchesPatternIsContains(s: string, pattern: string)
    ensures MatchesPattern(s, pattern) <==> Contains(s, pattern)
  {
    PrefixOrSuffixOrContains(s, pattern);
  }

  /** The files with exactly this mime type, in list order; nil when there are none. */
  function FindFileByMimeType(files: seq<MessageFile>, mimeType: string): (r: Slice<MessageFile>)
    ensures r.Nil? <==> forall i :: 0 <= i < |files| ==> files[i].mimeType != mimeType
    ensures r.Elements() == Filter(files, (f: MessageFile) => f.mimeType == mimeType)
  {
    var m := Filter(files, (f: MessageFile) => f.mimeType == mimeType);
    FilterEmptyIff(files, (f: MessageFile) => f.mimeType == mimeType);
    if m == [] then Nil else Slice(m)
  }

  /** The files whose mime type is one of the given ones, in list order. */
  function FindFileByMimeTypes(files: seq<MessageFile>, mimeTypes: seq<string>): (r: Slice<MessageFile>)
    ensures r.Nil? <==> forall i :: 0 <= i < |files| ==> files[i].mimeType !in mimeTypes
    ensures r.Elements() == Filter(files, (f: MessageFile) => f.mimeType in mimeTypes)
  {
    var m := Filter(files, (f: MessageFile) => f.mimeType in mimeTypes);
    FilterEmptyIff(files, (f: MessageFile) => f.mimeType in mimeTypes);
    if m == [] then Nil else Slice(m)
  }

  /** The patterns one file's mime type matches, in pattern order. */
  function PatternHits(f: MessageFile, patterns: seq<string>): seq<string> {
    Filter(patterns, (pattern: string) => MatchesPattern(f.mimeType, pattern))
  }

  /** Each file once for every pattern its mime type matches, files in list
      order: the loop of `FindFileByMimeTypePatterns`. */
  function PatternMatches(files: seq<MessageFile>, patterns: seq<string>): seq<MessageFile> {
    Repeats(files, (f: MessageFile) => |PatternHits(f, patterns)|)
  }

  /** `FindFileByMimeTypePatterns`: a file occurs as often as it occurs in the
      list times the number of patterns it matches; nil when nothing matches. */
  function FindFileByMimeTypePatterns(files: seq<MessageFile>, patterns: seq<string>): (r: Slice<MessageFile>)
    ensures r.Nil? <==> forall i :: 0 <= i < |files| ==> PatternHits(files[i], patterns) == []
    ensures forall f :: multiset(r.Elements())[f] == multiset(files)[f] * |PatternHits(f, patterns)|
  {
    var m := PatternMatches(files, patterns);
    var n := (f: MessageFile) => |PatternHits(f, patterns)|;
    forall f
      ensures multiset(m)[f] == multiset(files)[f] * |PatternHits(f, patterns)|
    {
      RepeatsCount(files, n, f);
    }
    RepeatsEmpty(files, n);
    if m == [] then Nil else Slice(m)
  }

  /** A file shows up in the result exactly when some pattern occurs in its mime type. */
  lemma PatternResultMembership(files: seq<MessageFile>, patterns: seq<string>, f: MessageFile)
    ensures f in FindFileByMimeTypePatterns(files, patterns).Elements() <==>
      f in files && exists j :: 0 <= j < |patterns| && Contains(f.mimeType, patterns[j])
  {
    RepeatsMembership(files, (g: MessageFile) => |PatternHits(g, patterns)|, f);
    var hits := PatternHits(f, patterns);
    var mp := (pattern: string) => MatchesPattern(f.mimeType, pattern);
    if exists j :: 0 <= j < |patterns| && Contains(f.mimeType, patterns[j]) {
      var j :| 0 <= j < |patterns| && Contains(f.mimeType, patterns[j]);
      MatchesPatternIsContains(f.mimeType, patterns[j]);
      FilterMembership(patterns, mp, patterns[j]);
    } else if hits != [] {
      FilterMembership(patterns, mp, hits[0]);
      var j :| 0 <= j < |patterns| && patterns[j] == hits[0];
      MatchesPatternIsContains(f.mimeType, patterns[j]);
    }
  }

  /** A file matching two patterns is returned twice. */
  lemma PatternDuplicates(f: MessageFile)
    requires f.mimeType == "image/png"
    ensures FindFileByMimeTypePatterns([f], ["image", "png"]) == Slice([f, f])
  {
    assert MatchesPattern(f.mimeType, "image") by { assert f.mimeType[..5] == "image"; }
    assert MatchesPattern(f.mimeType, "png") by { assert f.mimeType[6..] == "png"; }
    var mp := (pattern: string) => MatchesPattern(f.mimeType, pattern);
    assert Filter(["image", "png"], mp) == ["image", "png"];
    var n := (g: MessageFile) => |PatternHits(g, ["image", "png"])|;
    assert n(f) == 2;
    RepeatsSingle(f, n);
    assert seq(2, _ => f) == [f, f];
  }

  /** The position of the first file with this name, or -1. */
  function IndexByName(files: seq<MessageFile>, fileName: string): (r: int)
    ensures -1 <= r < |files|
    ensures r >= 0 ==> files[r].fileName == fileName && forall k :: 0 <= k < r ==> files[k].fileName != fileName
    ensures r < 0 ==> forall k :: 0 <= k < |files| ==> files[k].fileName != fileName
    decreases |files|
  {
    if files == [] then -1
    else if files[0].fileName == fileName then 0
    else
      var r := IndexByName(files[1..], fileName);
      if r < 0 then -1 else r + 1
  }

  /** `FindFileByName`: the first file with this name, or nil. */
  function FindFileByName(files: seq<MessageFile>, fileName: string): (r: Option<MessageFile>)
    ensures r.None? <==> forall i :: 0 <= i < |files| ==> files[i].fileName != fileName
    ensures r.Some? ==>
      r.value.fileName == fileName &&
      exists i :: 0 <= i < |files| && files[i] == r.value && forall k :: 0 <= k < i ==> files[k].fileName != fileName
  {
    var i := IndexByName(files, fileName);
    if i < 0 then None else Some(files[i])
  }

  /** `FindFilesByPattern`: the files, in list order, whose name passes the pattern test. */
  function FindFilesByPattern(files: seq<MessageFile>, pattern: string): (r: Slice<MessageFile>)
    ensures r.Elements() == Filter(files, (f: MessageFile) => MatchesPattern(f.fileName, pattern))
    ensures r.Nil? <==> forall i :: 0 <= i < |files| ==> !Contains(files[i].fileName, pattern)
  {
    var m := Filter(files, (f: MessageFile) => MatchesPattern(f.fileName, pattern));
    FilterEmptyIff(files, (f: MessageFile) => MatchesPattern(f.fileName, pattern));
    assert forall i :: 0 <= i < |files| ==>
        (MatchesPattern(files[i].fileName, pattern) <==> Contains(files[i].fileName, pattern)) by {
      forall i | 0 <= i < |files| {
        MatchesPatternIsContains(files[i].fileName, pattern);
      }
    }
    if m == [] then Nil else Slice(m)
  }

  /** A file is found exactly when the pattern occurs in its name. */
  lemma FindFilesByPatternMembership(files: seq<MessageFile>, pattern: string, f: MessageFile)
    ensures f in FindFilesByPattern(files, pattern).Elements() <==> f in files && Contains(f.fileName, pattern)
  {
    FilterMembership(files, (g: MessageFile) => MatchesPattern(g.fileName, pattern), f);
    MatchesPatternIsContains(f.fileName, pattern);
  }

  /** No file is listed twice by `FindFilesByPattern`: it keeps each occurrence in the list at most once. */
  lemma FindFilesByPatternNoRepeats(files: seq<MessageFile>, pattern: string, f: MessageFile)
    ensures multiset(FindFilesByPattern(files, pattern).Elements())[f] <= multiset(files)[f]
  {
    FilterMultiset(files, (g: MessageFile) => MatchesPattern(g.fileName, pattern), f);
  }
}
