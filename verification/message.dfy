/** Messages and their content lists. */
module Messages {
  import opened Wrappers
  import opened Strings
  import opened Seqs
  import opened MessageFiles
  import Adapters
  import AIModels
  import ConversationRoles
  import MessageTypes
  import TokenDirections

  const MessageIdPrefix: string := "msg"
  const MessageIdLength: nat := 16

  /** The length is counted in UTF-8 bytes, as Go's `len` counts it. */
  predicate IsAIgencyMessageID(id: string) {
    Utf8Length(id) == MessageIdLength + |MessageIdPrefix| + 1 && HasPrefix(id, MessageIdPrefix)
  }

  /** The ids are 20 bytes starting "msg"; for ASCII ids, 20 characters. */
  lemma MessageIdShape(id: string)
    ensures IsAIgencyMessageID(id) <==> Utf8Length(id) == 20 && |id| >= 3 && id[..3] == "msg"
    ensures IsAscii(id) ==> (IsAIgencyMessageID(id) <==> |id| == 20 && id[..3] == "msg")
    ensures IsAIgencyMessageID(id) ==> 5 <= |id| <= 20
  {
    Utf8LengthBounds(id);
  }

  // ------------------------------------------------------------ content

  type ContentType = string

  const TextContent: ContentType := "text"
  const FileContent: ContentType := "file"

  /** One content item; `file` is `None` for a nil file pointer. */
  datatype Content = Content(contentType: ContentType, text: string, file: Option<MessageFile>)

  /** `NewAIgencyMessageContent`: a nil text becomes "", and the file is kept
      only for a file item. */
  function NewContent(contentType: ContentType, text: Option<string>, file: Option<MessageFile>): (c: Content)
    ensures c.contentType == contentType
    ensures text.None? ==> c.text == ""
    ensures text.Some? ==> c.text == text.value
    ensures c.file.Some? <==> contentType == FileContent && file.Some?
    ensures c.file.Some? ==> c.file == file
  {
    Content(
      contentType,
      if text.Some? then text.value else "",
      if contentType == FileContent && file.Some? then file else None)
  }

  /** A content list; `fullText` is a cached rendering that the operations
      changing `data` refresh. */
  datatype ContentList = ContentList(data: seq<Content>, fullText: string, separator: string)

  function NewContentList(): (l: ContentList)
    ensures l.data == [] && l.fullText == "" && l.separator == "\n"
  {
    ContentList([], "", "\n")
  }

  /** Changing the separator does not refresh the cached full text. */
  function SetSeparatorString(l: ContentList, separator: string): (r: ContentList)
    ensures r.separator == separator && r.data == l.data && r.fullText == l.fullText
  {
    l.(separator := separator)
  }

  function GetSeparatorString(l: ContentList): (r: string)
    ensures r == l.separator
  {
    l.separator
  }

  /** A text item is rendered unless it is empty and neither flag asks for it. */
  predicate TextIncluded(c: Content, includeAll: bool, includeEmpty: bool) {
    c.contentType == TextContent && (includeAll || c.text != "" || includeEmpty)
  }

  /** A file item is rendered when it has a file, or always with `includeAll`. */
  predicate FileIncluded(c: Content, includeAll: bool) {
    c.contentType == FileContent && (includeAll || c.file.Some?)
  }

  predicate IsIncluded(c: Content, includeAll: bool, includeEmpty: bool) {
    TextIncluded(c, includeAll, includeEmpty) || FileIncluded(c, includeAll)
  }

  function Includes(includeAll: bool, includeEmpty: bool): Content -> bool {
    (c: Content) => IsIncluded(c, includeAll, includeEmpty)
  }

  /** An item rendered with a nil file: reading its file name panics. */
  predicate PanicsOn(c: Content, includeAll: bool) {
    FileIncluded(c, includeAll) && c.file.None?
  }

  /** What an item contributes: its text, or its file's name. */
  function ItemText(c: Content): string {
    if c.contentType == TextContent then c.text
    else if c.file.Some? then c.file.value.fileName
    else ""
  }

  /** The texts of the rendered items, in list order. */
  function Included(data: seq<Content>, includeAll: bool, includeEmpty: bool): seq<string> {
    Map(Filter(data, Includes(includeAll, includeEmpty)), ItemText)
  }

  const NilFilePanic: string := "invalid memory address or nil pointer dereference"

  /** The Go loop: every rendered item followed by the separator. */
  function Accumulate(data: seq<Content>, sep: string, includeAll: bool, includeEmpty: bool): Run<string>
    decreases |data|
  {
    if data == [] then Done("")
    else
      match Accumulate(data[..|data| - 1], sep, includeAll, includeEmpty)
      case Panic(m) => Panic(m)
      case Done(t) =>
        var c := data[|data| - 1];
        if TextIncluded(c, includeAll, includeEmpty) then Done(t + c.text + sep)
        else if FileIncluded(c, includeAll) then
          if c.file.None? then Panic(NilFilePanic) else Done(t + c.file.value.fileName + sep)
        else Done(t)
  }

  lemma IncludedSnoc(data: seq<Content>, c: Content, includeAll: bool, includeEmpty: bool)
    ensures Included(data + [c], includeAll, includeEmpty) ==
      Included(data, includeAll, includeEmpty) + (if IsIncluded(c, includeAll, includeEmpty) then [ItemText(c)] else [])
  {
    var p := Includes(includeAll, includeEmpty);
    FilterAppend(data, [c], p);
    assert Filter([c], p) == if p(c) then [c] else [];
    MapAppend(Filter(data, p), Filter([c], p), ItemText);
  }

  /** The loop panics exactly when some rendered file item has no file. */
  lemma {:induction false} AccumulatePanics(data: seq<Content>, sep: string, includeAll: bool, includeEmpty: bool)
    ensures Accumulate(data, sep, includeAll, includeEmpty).Panic? <==>
      exists i :: 0 <= i < |data| && PanicsOn(data[i], includeAll)
    decreases |data|
  {
    if data != [] {
      var init, c := data[..|data| - 1], data[|data| - 1];
      AccumulatePanics(init, sep, includeAll, includeEmpty);
      if exists i :: 0 <= i < |init| && PanicsOn(init[i], includeAll) {
        var i :| 0 <= i < |init| && PanicsOn(init[i], includeAll);
        assert data[i] == init[i];
      }
      if exists i :: 0 <= i < |data| && PanicsOn(data[i], includeAll) {
        var i :| 0 <= i < |data| && PanicsOn(data[i], includeAll);
        if i < |init| {
          assert init[i] == data[i];
        }
      }
    }
  }

  /** A loop that does not panic builds the rendered texts, each followed by the separator. */
  lemma {:induction false} AccumulateDone(data: seq<Content>, sep: string, includeAll: bool, includeEmpty: bool)
    ensures Accumulate(data, sep, includeAll, includeEmpty).Done? ==>
      Accumulate(data, sep, includeAll, includeEmpty).value == Terminated(Included(data, includeAll, includeEmpty), sep)
    decreases |data|
  {
    if data == [] {
      assert Included(data, includeAll, includeEmpty) == [];
    } else {
      var init, c := data[..|data| - 1], data[|data| - 1];
      assert data == init + [c];
      AccumulateDone(init, sep, includeAll, includeEmpty);
      var a := Accumulate(init, sep, includeAll, includeEmpty);
      if a.Done? && !PanicsOn(c, includeAll) {
        var xs := Included(init, includeAll, includeEmpty);
        IncludedSnoc(init, c, includeAll, includeEmpty);
        TerminatedAppend(xs, ItemText(c), sep);
        if TextIncluded(c, includeAll, includeEmpty) {
          assert Accumulate(data, sep, includeAll, includeEmpty) == Done(a.value + ItemText(c) + sep);
        } else if FileIncluded(c, includeAll) {
          assert Accumulate(data, sep, includeAll, includeEmpty) == Done(a.value + ItemText(c) + sep);
        } else {
          assert Accumulate(data, sep, includeAll, includeEmpty) == a;
          assert Included(data, includeAll, includeEmpty) == xs;
        }
      }
    }
  }

  /** The loop panics exactly when some rendered file item has no file, and
      otherwise builds the rendered texts, each followed by the separator. */
  lemma AccumulateIsTerminated(data: seq<Content>, sep: string, includeAll: bool, includeEmpty: bool)
    ensures Accumulate(data, sep, includeAll, includeEmpty).Panic? <==>
      exists i :: 0 <= i < |data| && PanicsOn(data[i], includeAll)
    ensures Accumulate(data, sep, includeAll, includeEmpty).Done? ==>
      Accumulate(data, sep, includeAll, includeEmpty).value == Terminated(Included(data, includeAll, includeEmpty), sep)
  {
    AccumulatePanics(data, sep, includeAll, includeEmpty);
    AccumulateDone(data, sep, includeAll, includeEmpty);
  }

  /** `GetConcatenatedText`: the rendered items joined by the separator with no
      separator after the last one; a rendered file item without a file panics. */
  function GetConcatenatedText(l: ContentList, includeAll: bool, includeEmpty: bool): (r: Run<string>)
    ensures r.Panic? <==> exists i :: 0 <= i < |l.data| && PanicsOn(l.data[i], includeAll)
    ensures r.Done? ==> r.value == Join(Included(l.data, includeAll, includeEmpty), l.separator)
  {
    AccumulateIsTerminated(l.data, l.separator, includeAll, includeEmpty);
    StripLastSeparator(Included(l.data, includeAll, includeEmpty), l.separator);
    match Accumulate(l.data, l.separator, includeAll, includeEmpty)
    case Panic(m) => Panic(m)
    case Done(t) => Done(if |t| > 0 then t[..|t| - |l.separator|] else t)
  }

  /** Some file item of the list has no file: rendering everything panics. */
  predicate HasNilFile(data: seq<Content>) {
    exists i :: 0 <= i < |data| && data[i].contentType == FileContent && data[i].file.None?
  }

  /** The cached full text is the rendering of every text and file item. */
  predicate Synced(l: ContentList) {
    GetConcatenatedText(l, true, false) == Done(l.fullText)
  }

  /** Replace `data` and recompute the full text, as the mutators do. */
  function Refresh(l: ContentList, data: seq<Content>): (r: Run<ContentList>)
    ensures r.Panic? <==> HasNilFile(data)
    ensures r.Done? ==> r.value.data == data && r.value.separator == l.separator && Synced(r.value)
  {
    var l2 := l.(data := data);
    match GetConcatenatedText(l2, true, false)
    case Panic(m) => Panic(m)
    case Done(t) => Done(l2.(fullText := t))
  }

  /** `AddContent`: append the item and refresh the full text. */
  function AddContent(l: ContentList, c: Content): (r: Run<ContentList>)
    ensures r.Panic? <==> HasNilFile(l.data + [c])
    ensures r.Done? ==> r.value.data == l.data + [c] && r.value.separator == l.separator && Synced(r.value)
  {
    Refresh(l, l.data + [c])
  }

  /** From a synced list, adding an item extends the full text by the separator
      and the item's text, or starts it; an item of another type changes nothing. */
  lemma AddContentExtendsFullText(l: ContentList, c: Content)
    requires Synced(l)
    requires AddContent(l, c).Done?
    ensures var full := AddContent(l, c).value.fullText;
      if c.contentType != TextContent && c.contentType != FileContent then full == l.fullText
      else if Included(l.data, true, false) == [] then full == ItemText(c)
      else full == l.fullText + l.separator + ItemText(c)
  {
    IncludedSnoc(l.data, c, true, false);
    JoinAppend(Included(l.data, true, false), ItemText(c), l.separator);
  }

  function OfType(contentType: ContentType): Content -> bool {
    (c: Content) => c.contentType == contentType
  }

  function NotOfType(contentType: ContentType): Content -> bool {
    (c: Content) => c.contentType != contentType
  }

  /** `DeleteContentByType`: keep the items of the other types, in order, and refresh. */
  function DeleteContentByType(l: ContentList, contentType: ContentType): (r: Run<ContentList>)
    ensures r.Panic? <==> HasNilFile(Filter(l.data, NotOfType(contentType)))
    ensures r.Done? ==> r.value.data == Filter(l.data, NotOfType(contentType)) && Synced(r.value)
    ensures r.Done? ==> r.value.separator == l.separator
  {
    Refresh(l, Filter(l.data, NotOfType(contentType)))
  }

  /** `GetContentByType`: the items of that type in order; nil when there are none. */
  function GetContentByType(l: ContentList, contentType: ContentType): (r: Slice<Content>)
    ensures r.Nil? <==> forall i :: 0 <= i < |l.data| ==> l.data[i].contentType != contentType
    ensures r.Elements() == Filter(l.data, OfType(contentType))
  {
    var m := Filter(l.data, OfType(contentType));
    FilterEmptyIff(l.data, OfType(contentType));
    if m == [] then Nil else Slice(m)
  }

  /** Deleting a type removes exactly the items that `GetContentByType` finds:
      the two split the list, counting repetitions, and deleting file items
      leaves nothing that can panic. */
  lemma DeleteAndGetPartition(l: ContentList, contentType: ContentType)
    ensures multiset(Filter(l.data, NotOfType(contentType))) + multiset(GetContentByType(l, contentType).Elements()) ==
      multiset(l.data)
    ensures forall c :: c in Filter(l.data, NotOfType(contentType)) <==> c in l.data && c.contentType != contentType
    ensures DeleteContentByType(l, FileContent).Done?
  {
    var kept := Filter(l.data, NotOfType(contentType));
    var found := Filter(l.data, OfType(contentType));
    forall c
      ensures (multiset(kept) + multiset(found))[c] == multiset(l.data)[c]
    {
      FilterMultiset(l.data, NotOfType(contentType), c);
      FilterMultiset(l.data, OfType(contentType), c);
    }
    forall c
      ensures c in kept <==> c in l.data && c.contentType != contentType
    {
      FilterMembership(l.data, NotOfType(contentType), c);
    }
  }

  /** `DeleteContentByIndex`: drop the item at an index in range, keep the list
      otherwise, and refresh in both cases. */
  function DeleteContentByIndex(l: ContentList, index: int): (r: Run<ContentList>)
    ensures r.Panic? <==> HasNilFile(if 0 <= index < |l.data| then l.data[..index] + l.data[index + 1..] else l.data)
    ensures r.Done? && 0 <= index < |l.data| ==> r.value.data == l.data[..index] + l.data[index + 1..]
    ensures r.Done? && !(0 <= index < |l.data|) ==> r.value.data == l.data
    ensures r.Done? ==> Synced(r.value) && r.value.separator == l.separator
  {
    if 0 <= index < |l.data| then Refresh(l, l.data[..index] + l.data[index + 1..])
    else Refresh(l, l.data)
  }

  /** Deleting an index in range shortens the list by one and shifts the later items down. */
  lemma DeleteByIndexShifts(l: ContentList, index: int)
    requires DeleteContentByIndex(l, index).Done?
    ensures var d := DeleteContentByIndex(l, index).value.data;
      (0 <= index < |l.data| ==>
         |d| == |l.data| - 1 &&
         (forall k :: 0 <= k < index ==> d[k] == l.data[k]) &&
         (forall k :: index <= k < |d| ==> d[k] == l.data[k + 1])) &&
      (!(0 <= index < |l.data|) ==> d == l.data)
  {
    if 0 <= index < |l.data| {
      RemoveAtShifts(l.data, index);
    }
  }

  /** `ClearData` empties the list and its full text. */
  function ClearData(l: ContentList): (r: ContentList)
    ensures r.data == [] && r.fullText == "" && r.separator == l.separator
  {
    l.(data := [], fullText := "")
  }

  /** Clearing keeps the full text in sync, and every mutator that does not
      panic leaves it in sync, whatever state it started from. */
  lemma MutatorsKeepSynced(l: ContentList, c: Content, t: ContentType, index: int)
    ensures Synced(ClearData(l))
    ensures AddContent(l, c).Done? ==> Synced(AddContent(l, c).value)
    ensures DeleteContentByType(l, t).Done? ==> Synced(DeleteContentByType(l, t).value)
    ensures DeleteContentByIndex(l, index).Done? ==> Synced(DeleteContentByIndex(l, index).value)
  {
    assert Included([], true, false) == [];
  }

  /** A new separator leaves the cached full text stale: a list with two
      texts rendered with "\n" is no longer in sync once the separator is " ". */
  lemma SetSeparatorDesyncs(a: string, b: string)
    ensures var l := ContentList([Content(TextContent, a, None), Content(TextContent, b, None)], a + "\n" + b, "\n");
      Synced(l) && !Synced(SetSeparatorString(l, " "))
  {
    var data := [Content(TextContent, a, None), Content(TextContent, b, None)];
    var p := Includes(true, false);
    assert Filter(data, p) == data by {
      FilterAllKept(data, p);
    }
    assert Included(data, true, false) == [a, b];
    assert Join([a, b], "\n") == a + "\n" + b;
    assert Join([a, b], " ") == a + " " + b;
    assert (a + " " + b)[|a|] == ' ';
    assert (a + "\n" + b)[|a|] == '\n';
  }

  /** `GetContentByIndex`: the item at an index in range, nil otherwise. */
  function GetContentByIndex(l: ContentList, index: int): (r: Option<Content>)
    ensures r.None? <==> !(0 <= index < |l.data|)
    ensures r.Some? ==> r.value == l.data[index]
  {
    if 0 <= index < |l.data| then Some(l.data[index]) else None
  }

  function IsEmpty(l: ContentList): (r: bool)
    ensures r <==> |l.data| == 0
  {
    |l.data| == 0
  }

  function Count(l: ContentList): (r: nat)
    ensures r == |l.data|
  {
    |l.data|
  }

  /** Every index below the count finds an item, and an empty list finds none. */
  lemma CountAndIndex(l: ContentList, index: int)
    ensures GetContentByIndex(l, index).Some? <==> 0 <= index < Count(l)
    ensures IsEmpty(l) ==> GetContentByIndex(l, index).None?
  {
  }

  /** `GetData` returns a copy of the items. */
  function GetData(l: ContentList): (r: seq<Content>)
    ensures r == l.data
  {
    l.data
  }

  /** The getters follow the mutators: a new list is empty, adding an item
      appends it and counts one more, clearing empties, and deleting an index
      in range counts one fewer. */
  lemma CountTracksMutators(l: ContentList, c: Content, index: int)
    ensures IsEmpty(NewContentList()) && Count(NewContentList()) == 0
    ensures IsEmpty(l) <==> Count(l) == 0
    ensures IsEmpty(l) <==> GetData(l) == []
    ensures AddContent(l, c).Done? ==>
      GetData(AddContent(l, c).value) == GetData(l) + [c] &&
      Count(AddContent(l, c).value) == Count(l) + 1 && !IsEmpty(AddContent(l, c).value)
    ensures IsEmpty(ClearData(l)) && GetData(ClearData(l)) == []
    ensures DeleteContentByIndex(l, index).Done? ==>
      Count(DeleteContentByIndex(l, index).value) == if 0 <= index < Count(l) then Count(l) - 1 else Count(l)
  {
  }

  /** The separator read back is the one last set; the mutators keep it. */
  lemma SeparatorAccessors(l: ContentList, separator: string, c: Content, t: ContentType)
    ensures GetSeparatorString(SetSeparatorString(l, separator)) == separator
    ensures GetSeparatorString(NewContentList()) == "\n"
    ensures AddContent(l, c).Done? ==> GetSeparatorString(AddContent(l, c).value) == GetSeparatorString(l)
    ensures DeleteContentByType(l, t).Done? ==> GetSeparatorString(DeleteContentByType(l, t).value) == GetSeparatorString(l)
    ensures GetSeparatorString(ClearData(l)) == GetSeparatorString(l)
  {
  }

  /** `TextLength`: the length in bytes (Go's `len`) of the rendering of every
      text and file item; it panics where that rendering does. */
  function TextLength(l: ContentList): (r: Run<nat>)
    ensures r.Panic? <==> HasNilFile(l.data)
    ensures r.Done? ==> r.value == Utf8Length(Join(Included(l.data, true, false), l.separator))
  {
    match GetConcatenatedText(l, true, false)
    case Panic(m) => Panic(m)
    case Done(t) => Done(Utf8Length(t))
  }

  /** On a synced list the length is that of the cached text, and lies between
      its character count and four bytes per character. */
  lemma TextLengthOfSynced(l: ContentList)
    requires Synced(l)
    ensures TextLength(l) == Done(Utf8Length(l.fullText))
    ensures |l.fullText| <= TextLength(l).value <= 4 * |l.fullText|
    ensures IsAscii(l.fullText) ==> TextLength(l).value == |l.fullText|
  {
    Utf8LengthBounds(l.fullText);
  }

  /** Adding a text or file item to a synced list adds the bytes of the
      separator (unless the rendering was empty) and of the item's text. */
  lemma TextLengthAfterAdd(l: ContentList, c: Content)
    requires Synced(l)
    requires AddContent(l, c).Done?
    requires c.contentType == TextContent || c.contentType == FileContent
    ensures var before, after := TextLength(l).value, TextLength(AddContent(l, c).value).value;
      if Included(l.data, true, false) == [] then after == Utf8Length(ItemText(c))
      else after == before + Utf8Length(l.separator) + Utf8Length(ItemText(c))
  {
    AddContentExtendsFullText(l, c);
    var full := AddContent(l, c).value.fullText;
    TextLengthOfSynced(l);
    TextLengthOfSynced(AddContent(l, c).value);
    if Included(l.data, true, false) != [] {
      Utf8LengthAppend(l.fullText + l.separator, ItemText(c));
      Utf8LengthAppend(l.fullText, l.separator);
    }
  }

  /** A file item that carries a file. */
  predicate HasFile(c: Content) {
    c.contentType == FileContent && c.file.Some?
  }

  /** `GetAIgencyFileList`: the files of the file items that have one, in order:
      one file per such item, and nothing else. */
  function GetAIgencyFileList(data: seq<Content>): (r: seq<MessageFile>)
    ensures |r| <= |data|
    ensures var items := Filter(data, HasFile);
      |r| == |items| && forall i :: 0 <= i < |r| ==> items[i].file == Some(r[i])
    decreases |data|
  {
    if data == [] then []
    else
      var init, c := data[..|data| - 1], data[|data| - 1];
      var rest := GetAIgencyFileList(init);
      assert data == init + [c];
      FilterAppend(init, [c], HasFile);
      if HasFile(c) then AddFile(rest, c.file.value) else rest
  }

  /** A file is listed exactly when some file item carries it. */
  lemma FileListMembership(data: seq<Content>, f: MessageFile)
    ensures f in GetAIgencyFileList(data) <==>
      exists i :: 0 <= i < |data| && data[i].contentType == FileContent && data[i].file == Some(f)
  {
    var r := GetAIgencyFileList(data);
    if f in r {
      var j :| 0 <= j < |r| && r[j] == f;
      ItemOfFileList(data, j);
    }
    if exists i :: 0 <= i < |data| && data[i].contentType == FileContent && data[i].file == Some(f) {
      var i :| 0 <= i < |data| && data[i].contentType == FileContent && data[i].file == Some(f);
      FileListHasItem(data, i);
    }
  }

  /** The file of every file item that has one is listed. */
  lemma FileListHasItem(data: seq<Content>, i: nat)
    requires i < |data| && HasFile(data[i])
    ensures data[i].file.value in GetAIgencyFileList(data)
  {
    var r, items := GetAIgencyFileList(data), Filter(data, HasFile);
    FilterMembership(data, HasFile, data[i]);
    var j :| 0 <= j < |items| && items[j] == data[i];
    assert r[j] == data[i].file.value;
  }

  /** Each listed file comes from a file item of the data. */
  lemma ItemOfFileList(data: seq<Content>, j: nat)
    requires j < |GetAIgencyFileList(data)|
    ensures exists i :: 0 <= i < |data| && data[i].contentType == FileContent && data[i].file == Some(GetAIgencyFileList(data)[j])
  {
    var items := Filter(data, HasFile);
    FilterMembership(data, HasFile, items[j]);
    var i :| 0 <= i < |data| && data[i] == items[j];
  }

  // ------------------------------------------------------------ messages

  datatype Message = Message(
    id: string,
    mtype: MessageTypes.MessageType,
    referenceId: string,
    responseToId: string,
    missionId: string,
    channelId: string,
    channelName: string,
    threadId: string,
    senderId: string,
    senderName: string,
    role: ConversationRoles.ConversationRole,
    ownerOrganizationId: string,
    metaData: map<string, Adapters.Value>,
    completionParameters: map<string, Adapters.Value>,
    chatCompletionConfig: map<string, Adapters.Value>,
    content: Option<ContentList>,
    attachments: Option<seq<MessageFile>>,
    tokenCount: int,
    tokenDirection: TokenDirections.TokenDirection,
    aiServiceId: string,
    aiModelId: string,
    createdAt: int,
    updatedAt: int,
    errorMessage: string,
    createdForFeature: AIModels.Feature)

  /** `NewAIgencyMessage`; the generated id and the current JavaScript timestamp are parameters. */
  function NewMessage(id: string, now: int): (m: Message)
    ensures m.id == id && m.createdAt == now && m.updatedAt == now
    ensures m.metaData == map[] && m.completionParameters == map[] && m.chatCompletionConfig == map[]
    ensures m.content == Some(NewContentList()) && m.attachments == Some([])
    ensures m.tokenCount == 0
  {
    Message(id, "", "", "", "", "", "", "", "", "", "", "", map[], map[], map[],
      Some(NewContentList()), Some([]), 0, "", "", "", now, now, "",
      AIModels.Feature("", [], [], []))
  }
}
