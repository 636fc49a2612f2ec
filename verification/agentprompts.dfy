/** Agent prompts: versioned prompt texts that keep their first version and
    the most recent ones. */
module AgentPrompts {
  import opened Wrappers
  import opened Strings
  import opened Seqs

  const PromptIdPrefix: string := "prt"
  const PromptIdLength: nat := 12
  /** Separates the variables inside a prompt reference. */
  const VarSeparator: string := ";"
  /** Separates a prompt id from a version number. */
  const VersionSeparator: string := "@"
  /** How many versions besides the first one a prompt keeps. */
  const MaxPreviousVersions: nat := 3

  /** Unlike the other ids, a prompt id has no separator after its prefix. */
  predicate IsAgentPromptID(id: string) {
    HasPrefix(id, PromptIdPrefix) && Utf8Length(id) == PromptIdLength + |PromptIdPrefix|
  }

  /** Prompt ids are 15 bytes starting "prt"; for ASCII ids, 15 characters. */
  lemma PromptIdShape(id: string)
    ensures IsAgentPromptID(id) <==> Utf8Length(id) == 15 && |id| >= 3 && id[..3] == "prt"
    ensures IsAscii(id) ==> (IsAgentPromptID(id) <==> |id| == 15 && id[..3] == "prt")
    ensures IsAgentPromptID(id) ==> 4 <= |id| <= 15
  {
    Utf8LengthBounds(id);
  }

  /** The prefix followed directly by 12 ASCII characters is a prompt id;
      with a separator after the prefix it is one byte too long. */
  lemma GeneratedPromptIdAccepted(random: string)
    requires IsAscii(random) && |random| == PromptIdLength
    ensures IsAgentPromptID(PromptIdPrefix + random)
    ensures !IsAgentPromptID(PromptIdPrefix + "_" + random)
  {
    Utf8LengthAppend(PromptIdPrefix, random);
    Utf8LengthAppend(PromptIdPrefix + "_", random);
    Utf8LengthBounds(PromptIdPrefix);
    Utf8LengthBounds(PromptIdPrefix + "_");
    Utf8LengthBounds(random);
    assert (PromptIdPrefix + random)[..3] == PromptIdPrefix;
  }

  type Visibility = string

  const VisibilityPrivate: Visibility := "private"
  const VisibilityOrganization: Visibility := "org"
  const VisibilityPublic: Visibility := "public"
  const VisibilityCurated: Visibility := "curated"

  type InjectionMode = string

  const InjectionAppend: InjectionMode := "append"
  const InjectionPrepend: InjectionMode := "prepend"
  const InjectionReplace: InjectionMode := "replace"

  datatype PromptVersion = PromptVersion(
    version: int,
    content: string,
    createdAt: int,
    createdBy: string)

  datatype AgentPrompt = AgentPrompt(
    id: string,
    title: string,
    description: string,
    thumbnailUrl: string,
    tags: Slice<string>,
    space: string,
    currentVersion: int,
    versions: seq<PromptVersion>,
    ownerId: string,
    ownerOrganizationId: string,
    createdAt: int,
    updatedAt: int,
    visibility: Visibility)

  /** `NewAgentPrompt`: the generated id and the clock reading are parameters. */
  function NewAgentPrompt(id: string, now: int): (p: AgentPrompt)
    ensures p.id == id && p.createdAt == now && p.updatedAt == now
    ensures p.currentVersion == 1 && p.versions == [] && p.visibility == VisibilityPrivate
    ensures p.tags.Nil? && p.title == "" && p.ownerId == "" && p.ownerOrganizationId == ""
  {
    AgentPrompt(id, "", "", "", Nil, "", 1, [], "", "", now, now, VisibilityPrivate)
  }

  /** The retention rule: a history longer than one plus `MaxPreviousVersions`
      shrinks to its first entry followed by its last `MaxPreviousVersions`. */
  function Retain<T>(s: seq<T>): (r: seq<T>)
    ensures |s| <= MaxPreviousVersions + 1 ==> r == s
    ensures |s| > MaxPreviousVersions + 1 ==>
      |r| == MaxPreviousVersions + 1 && r[0] == s[0] &&
      forall k :: 1 <= k < |r| ==> r[k] == s[|s| - |r| + k]
  {
    if |s| > MaxPreviousVersions + 1 then [s[0]] + s[|s| - MaxPreviousVersions..] else s
  }

  /** `AddVersion`: the new content becomes version `currentVersion`, the
      counter moves on, and the history is cut back by `Retain`. */
  function AddVersion(ap: AgentPrompt, content: string, createdBy: string, now: int): (r: AgentPrompt)
    ensures r.currentVersion == ap.currentVersion + 1 && r.updatedAt == now
    ensures r.versions != [] && r.versions[|r.versions| - 1] == PromptVersion(ap.currentVersion, content, now, createdBy)
    ensures |r.versions| == if |ap.versions| + 1 > MaxPreviousVersions + 1 then MaxPreviousVersions + 1 else |ap.versions| + 1
    ensures ap.versions != [] ==> r.versions[0] == ap.versions[0]
    ensures r == ap.(currentVersion := r.currentVersion, updatedAt := now, versions := r.versions)
  {
    var appended := ap.versions + [PromptVersion(ap.currentVersion, content, now, createdBy)];
    ap.(versions := Retain(appended), currentVersion := ap.currentVersion + 1, updatedAt := now)
  }

  /** The position of the first version with this number, or -1. */
  function IndexOfVersion(vs: seq<PromptVersion>, version: int): (r: int)
    ensures -1 <= r < |vs|
    ensures r >= 0 ==> vs[r].version == version && forall k :: 0 <= k < r ==> vs[k].version != version
    ensures r < 0 ==> forall k :: 0 <= k < |vs| ==> vs[k].version != version
    decreases |vs|
  {
    if vs == [] then -1
    else if vs[0].version == version then 0
    else
      var r := IndexOfVersion(vs[1..], version);
      if r < 0 then -1 else r + 1
  }

  /** `GetVersion`: version 0 asks for the newest entry, which panics on an
      empty history; any other number gives the first entry carrying it, or nil. */
  function GetVersion(ap: AgentPrompt, version: int): (r: Run<Option<PromptVersion>>)
    ensures r.Panic? <==> version == 0 && ap.versions == []
    ensures version == 0 && ap.versions != [] ==> r == Done(Some(ap.versions[|ap.versions| - 1]))
    ensures version != 0 ==>
      (r.value.None? <==> forall k :: 0 <= k < |ap.versions| ==> ap.versions[k].version != version)
    ensures version != 0 && r.value.Some? ==>
      r.value.value.version == version &&
      exists i :: 0 <= i < |ap.versions| && ap.versions[i] == r.value.value &&
        forall k :: 0 <= k < i ==> ap.versions[k].version != version
  {
    if version == 0 then
      if ap.versions == [] then Panic("index out of range [-1]")
      else Done(Some(ap.versions[|ap.versions| - 1]))
    else
      var i := IndexOfVersion(ap.versions, version);
      if i < 0 then Done(None) else Done(Some(ap.versions[i]))
  }

  /** The version numbers of a history, oldest first. */
  function VersionNumbers(vs: seq<PromptVersion>): seq<int> {
    Map(vs, (v: PromptVersion) => v.version)
  }

  /** The prompt invariant: version numbers strictly increase along the
      history, and every one of them is below the next number to hand out. */
  predicate WellVersioned(ap: AgentPrompt) {
    (forall i, j :: 0 <= i < j < |ap.versions| ==> ap.versions[i].version < ap.versions[j].version) &&
    (forall i :: 0 <= i < |ap.versions| ==> ap.versions[i].version < ap.currentVersion)
  }

  lemma NewIsWellVersioned(id: string, now: int)
    ensures WellVersioned(NewAgentPrompt(id, now))
  {
  }

  /** Cutting a history back keeps a subsequence, so increasing numbers stay increasing. */
  lemma RetainKeepsIncreasing(s: seq<PromptVersion>)
    requires forall i, j :: 0 <= i < j < |s| ==> s[i].version < s[j].version
    ensures forall i, j :: 0 <= i < j < |Retain(s)| ==> Retain(s)[i].version < Retain(s)[j].version
    ensures forall v :: v in Retain(s) ==> v in s
  {
    var r := Retain(s);
    if |s| > MaxPreviousVersions + 1 {
      forall i, j | 0 <= i < j < |r|
        ensures r[i].version < r[j].version
      {
        var si := if i == 0 then 0 else |s| - |r| + i;
        assert r[i] == s[si];
        assert r[j] == s[|s| - |r| + j];
      }
      forall v | v in r
        ensures v in s
      {
        var k :| 0 <= k < |r| && r[k] == v;
        if k == 0 { assert r[0] == s[0]; } else { assert r[k] == s[|s| - |r| + k]; }
      }
    }
  }

  lemma AddVersionKeepsWellVersioned(ap: AgentPrompt, content: string, createdBy: string, now: int)
    requires WellVersioned(ap)
    ensures WellVersioned(AddVersion(ap, content, createdBy, now))
  {
    var vs := ap.versions;
    var appended := vs + [PromptVersion(ap.currentVersion, content, now, createdBy)];
    forall i, j | 0 <= i < j < |appended|
      ensures appended[i].version < appended[j].version
    {
      assert appended[i] == vs[i];
      if j < |vs| {
        assert appended[j] == vs[j];
      }
    }
    RetainKeepsIncreasing(appended);
    var r := AddVersion(ap, content, createdBy, now);
    assert r.versions == Retain(appended);
    forall i | 0 <= i < |r.versions|
      ensures r.versions[i].version < r.currentVersion
    {
      assert r.versions[i] in appended;
      var k :| 0 <= k < |appended| && appended[k] == r.versions[i];
      if k < |vs| {
        assert appended[k] == vs[k];
      }
    }
  }

  /** Right after `AddVersion`, both "latest" (0) and the number just handed
      out find the new entry. */
  lemma GetAddedVersion(ap: AgentPrompt, content: string, createdBy: string, now: int)
    requires WellVersioned(ap)
    ensures var r := AddVersion(ap, content, createdBy, now);
      var added := PromptVersion(ap.currentVersion, content, now, createdBy);
      GetVersion(r, 0) == Done(Some(added)) &&
      (ap.currentVersion != 0 ==> GetVersion(r, ap.currentVersion) == Done(Some(added)))
  {
    var r := AddVersion(ap, content, createdBy, now);
    AddVersionKeepsWellVersioned(ap, content, createdBy, now);
    if ap.currentVersion != 0 {
      var g := GetVersion(r, ap.currentVersion);
      var last := |r.versions| - 1;
      assert r.versions[last].version == ap.currentVersion;
      assert g.value.Some?;
      var i :| 0 <= i < |r.versions| && r.versions[i] == g.value.value &&
        forall k :: 0 <= k < i ==> r.versions[k].version != ap.currentVersion;
      assert i == last;
    }
  }

  /** In a well-versioned prompt each number names at most one entry, and
      "latest" is the entry with the greatest number. */
  lemma GetVersionUnique(ap: AgentPrompt, i: nat)
    requires WellVersioned(ap) && i < |ap.versions|
    ensures ap.versions[i].version != 0 ==> GetVersion(ap, ap.versions[i].version) == Done(Some(ap.versions[i]))
    ensures forall k :: 0 <= k < |ap.versions| ==>
      ap.versions[k].version <= GetVersion(ap, 0).value.value.version
  {
    var v := ap.versions[i].version;
    if v != 0 {
      var g := GetVersion(ap, v);
      var j :| 0 <= j < |ap.versions| && ap.versions[j] == g.value.value &&
        forall k :: 0 <= k < j ==> ap.versions[k].version != v;
      assert j == i;
    }
  }

  /** Adding one version after another, oldest first. */
  function AddVersions(ap: AgentPrompt, contents: seq<string>, createdBy: string, now: int): AgentPrompt
    decreases |contents|
  {
    if contents == [] then ap
    else AddVersion(AddVersions(ap, contents[..|contents| - 1], createdBy, now), contents[|contents| - 1], createdBy, now)
  }

  /** The numbers `1..n`. */
  function Upto(n: nat): (r: seq<int>)
    ensures |r| == n && forall k :: 0 <= k < n ==> r[k] == k + 1
  {
    seq(n, k => k + 1)
  }

  /** The numbers a prompt with `n` added versions keeps: all of them while
      there are at most four, then the first one and the three newest. */
  function History(n: nat): seq<int> {
    if n <= MaxPreviousVersions + 1 then Upto(n) else [1, n - 2, n - 1, n]
  }

  /** On numbers, `AddVersion` appends the counter and applies `Retain`. */
  lemma AddVersionNumbers(ap: AgentPrompt, content: string, createdBy: string, now: int)
    ensures VersionNumbers(AddVersion(ap, content, createdBy, now).versions) ==
      Retain(VersionNumbers(ap.versions) + [ap.currentVersion])
  {
    var appended := ap.versions + [PromptVersion(ap.currentVersion, content, now, createdBy)];
    var f := (v: PromptVersion) => v.version;
    MapAppend(ap.versions, [appended[|appended| - 1]], f);
    assert VersionNumbers(appended) == VersionNumbers(ap.versions) + [ap.currentVersion];
    var a := Retain(appended);
    var b := Retain(VersionNumbers(appended));
    assert |Map(a, f)| == |b|;
    forall k | 0 <= k < |b|
      ensures Map(a, f)[k] == b[k]
    {
      if |appended| > MaxPreviousVersions + 1 && k > 0 {
        assert a[k] == appended[|appended| - |a| + k];
      }
    }
  }

  lemma HistoryStep(n: nat)
    requires n >= 1
    ensures Retain(History(n - 1) + [n]) == History(n)
  {
    if n <= MaxPreviousVersions + 1 {
      assert Upto(n - 1) + [n] == Upto(n);
    } else if n == MaxPreviousVersions + 2 {
      var s := Upto(n - 1) + [n];
      assert s == [1, 2, 3, 4, 5];
      assert s[|s| - 3..] == [3, 4, 5];
    } else {
      var s := [1, n - 3, n - 2, n - 1] + [n];
      assert s[|s| - 3..] == [n - 2, n - 1, n];
    }
  }

  /** A fresh prompt given `n` versions holds the numbers `History(n)`. */
  lemma {:induction false} AddVersionsHistory(id: string, now: int, contents: seq<string>, createdBy: string, at: int)
    ensures var p := AddVersions(NewAgentPrompt(id, now), contents, createdBy, at);
      p.currentVersion == |contents| + 1 && VersionNumbers(p.versions) == History(|contents|)
    decreases |contents|
  {
    var n := |contents|;
    if n > 0 {
      var init := contents[..n - 1];
      AddVersionsHistory(id, now, init, createdBy, at);
      var q := AddVersions(NewAgentPrompt(id, now), init, createdBy, at);
      var p := AddVersion(q, contents[n - 1], createdBy, at);
      assert AddVersions(NewAgentPrompt(id, now), contents, createdBy, at) == p;
      assert q.currentVersion == n && p.currentVersion == n + 1;
      AddVersionNumbers(q, contents[n - 1], createdBy, at);
      assert VersionNumbers(p.versions) == Retain(History(n - 1) + [n]);
      HistoryStep(n);
    }
  }
}
