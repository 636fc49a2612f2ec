/** An ordered list of messages: sorting by creation time, lookups, and the
    repair of role-sequence violations. */
module MessageLists {
  import opened Wrappers
  import opened Seqs
  import opened Messages
  import ConversationRoles
  import MessageTypes
  import AIModels
  import Adapters
  import MessageFiles

  type MessageList = seq<Message>

  function NewMessageList(): (l: MessageList)
    ensures |l| == 0
  {
    []
  }

  // ------------------------------------------------------------ ordering

  predicate SortedByCreatedAt(s: seq<Message>) {
    forall i, j :: 0 <= i < j < |s| ==> s[i].createdAt <= s[j].createdAt
  }

  /** Every message in the list was created at `b` or later. */
  predicate NotBefore(s: seq<Message>, b: int) {
    forall i :: 0 <= i < |s| ==> s[i].createdAt >= b
  }

  /** Insert `m` into a sorted list after every message not created later. */
  function Insert(s: seq<Message>, m: Message): (r: seq<Message>)
    requires SortedByCreatedAt(s)
    ensures SortedByCreatedAt(r)
    ensures |r| == |s| + 1
    ensures forall b :: NotBefore(s, b) && m.createdAt >= b ==> NotBefore(r, b)
    decreases |s|
  {
    if s == [] then [m]
    else if m.createdAt < s[0].createdAt then [m] + s
    else
      var rest := Insert(s[1..], m);
      assert NotBefore(s[1..], s[0].createdAt);
      [s[0]] + rest
  }

  lemma {:induction false} InsertPermutes(s: seq<Message>, m: Message)
    requires SortedByCreatedAt(s)
    ensures multiset(Insert(s, m)) == multiset(s) + multiset{m}
    decreases |s|
  {
    if s != [] && m.createdAt >= s[0].createdAt {
      InsertPermutes(s[1..], m);
      assert s == [s[0]] + s[1..];
    }
  }

  /** The list sorted by `CreatedAt`. */
  function SortByCreatedAt(s: seq<Message>): (r: seq<Message>)
    ensures SortedByCreatedAt(r)
    ensures |r| == |s|
    decreases |s|
  {
    if s == [] then []
    else Insert(SortByCreatedAt(s[..|s| - 1]), s[|s| - 1])
  }

  /** Sorting only reorders. */
  lemma {:induction false} SortPermutes(s: seq<Message>)
    ensures multiset(SortByCreatedAt(s)) == multiset(s)
    decreases |s|
  {
    if s != [] {
      var init, last := s[..|s| - 1], s[|s| - 1];
      assert s == init + [last];
      var sorted := SortByCreatedAt(init);
      SortPermutes(init);
      InsertPermutes(sorted, last);
      calc {
        multiset(SortByCreatedAt(s));
        multiset(Insert(sorted, last));
        multiset(sorted) + multiset{last};
        multiset(init) + multiset([last]);
        multiset(init + [last]);
      }
    }
  }

  /** A message created no earlier than everything in a sorted list goes at its end. */
  lemma {:induction false} InsertNewest(s: seq<Message>, m: Message)
    requires SortedByCreatedAt(s)
    requires forall i :: 0 <= i < |s| ==> s[i].createdAt <= m.createdAt
    ensures Insert(s, m) == s + [m]
    decreases |s|
  {
    if s != [] {
      InsertNewest(s[1..], m);
    }
  }

  /** Sorting a sorted list changes nothing. */
  lemma {:induction false} SortSortedIsIdentity(s: seq<Message>)
    requires SortedByCreatedAt(s)
    ensures SortByCreatedAt(s) == s
    decreases |s|
  {
    if s != [] {
      var init := s[..|s| - 1];
      SortSortedIsIdentity(init);
      InsertNewest(init, s[|s| - 1]);
      assert init + [s[|s| - 1]] == s;
    }
  }

  /** `AddMessage`: append and sort. */
  function AddMessage(l: MessageList, m: Message): (r: MessageList)
    ensures SortedByCreatedAt(r) && multiset(r) == multiset(l) + multiset{m}
  {
    SortPermutes(l + [m]);
    SortByCreatedAt(l + [m])
  }

  /** `AddMessages`: append all and sort. */
  function AddMessages(l: MessageList, ms: seq<Message>): (r: MessageList)
    ensures SortedByCreatedAt(r) && multiset(r) == multiset(l) + multiset(ms)
  {
    SortPermutes(l + ms);
    SortByCreatedAt(l + ms)
  }

  /** `CopyMessages`: append the other list's messages and sort. */
  function CopyMessages(l: MessageList, other: MessageList): (r: MessageList)
    ensures SortedByCreatedAt(r) && multiset(r) == multiset(l) + multiset(other)
  {
    SortPermutes(l + other);
    SortByCreatedAt(l + other)
  }

  /** Adding a message newer than all others to a sorted list just appends it. */
  lemma AddNewestAppends(l: MessageList, m: Message)
    requires SortedByCreatedAt(l)
    requires forall i :: 0 <= i < |l| ==> l[i].createdAt <= m.createdAt
    ensures AddMessage(l, m) == l + [m]
  {
    SortSortedIsIdentity(l + [m]);
  }

  function GetMessages(l: MessageList): (r: seq<Message>)
    ensures r == l
  {
    l
  }

  function GetLatestMessage(l: MessageList): (r: Option<Message>)
    ensures r.None? <==> |l| == 0
    ensures r.Some? ==> r.value == l[|l| - 1]
  {
    if |l| > 0 then Some(l[|l| - 1]) else None
  }

  function GetMessageByIndex(l: MessageList, index: int): (r: Option<Message>)
    ensures r.None? <==> !(0 <= index < |l|)
    ensures r.Some? ==> r.value == l[index]
  {
    if 0 <= index < |l| then Some(l[index]) else None
  }

  function ClearMessages(l: MessageList): (r: MessageList)
    ensures |r| == 0
  {
    []
  }

  function GetMessagesCount(l: MessageList): (r: nat)
    ensures r == |l|
  {
    |l|
  }

  /** What the getters see after the mutators: adding counts one more message
      per message added and keeps the list sorted, clearing and a new list
      count none, and an index finds a message exactly below the count. */
  lemma ListGettersTrackMutators(l: MessageList, m: Message, ms: seq<Message>, index: int)
    ensures GetMessagesCount(AddMessage(l, m)) == GetMessagesCount(l) + 1
    ensures m in GetMessages(AddMessage(l, m)) && SortedByCreatedAt(GetMessages(AddMessage(l, m)))
    ensures forall x :: x in GetMessages(l) ==> x in GetMessages(AddMessage(l, m))
    ensures GetMessagesCount(AddMessages(l, ms)) == GetMessagesCount(l) + |ms|
    ensures GetMessagesCount(ClearMessages(l)) == 0 && GetMessages(NewMessageList()) == []
    ensures GetMessageByIndex(l, index).Some? <==> 0 <= index < GetMessagesCount(l)
    ensures GetLatestMessage(l).None? <==> GetMessagesCount(l) == 0
  {
    var r := AddMessage(l, m);
    assert |multiset(r)| == |multiset(l)| + 1;
    assert m in multiset(r);
    forall x | x in GetMessages(l)
      ensures x in GetMessages(r)
    {
      assert x in multiset(l);
      assert multiset(r) == multiset(l) + multiset{m};
      assert x in multiset(r);
    }
    assert |multiset(AddMessages(l, ms))| == |multiset(l)| + |multiset(ms)|;
  }

  /** `RemoveMessageByIndex`: drop the message at an index in range and sort;
      an index out of range leaves the list as it is. */
  function RemoveMessageByIndex(l: MessageList, index: int): (r: MessageList)
    ensures 0 <= index < |l| ==>
      SortedByCreatedAt(r) && |r| == |l| - 1 && multiset(r) == multiset(l) - multiset{l[index]}
    ensures !(0 <= index < |l|) ==> r == l
  {
    if 0 <= index < |l| then
      assert l == l[..index] + [l[index]] + l[index + 1..];
      SortPermutes(l[..index] + l[index + 1..]);
      SortByCreatedAt(l[..index] + l[index + 1..])
    else l
  }

  /** On a sorted list, removal takes out exactly that message and keeps the
      order of the others. */
  lemma RemoveFromSorted(l: MessageList, index: int)
    requires SortedByCreatedAt(l)
    requires 0 <= index < |l|
    ensures RemoveMessageByIndex(l, index) == l[..index] + l[index + 1..]
  {
    var rest := l[..index] + l[index + 1..];
    forall i, j | 0 <= i < j < |rest|
      ensures rest[i].createdAt <= rest[j].createdAt
    {
      var i' := if i < index then i else i + 1;
      var j' := if j < index then j else j + 1;
      assert rest[i] == l[i'] && rest[j] == l[j'];
    }
    SortSortedIsIdentity(rest);
  }

  // ------------------------------------------------------------ lookups

  /** The matching messages in list order, as a slice that is nil when none match. */
  function Select(l: MessageList, p: Message -> bool): (r: Slice<Message>)
    ensures r.Nil? <==> forall i :: 0 <= i < |l| ==> !p(l[i])
    ensures r.Elements() == Filter(l, p)
  {
    FilterEmptyIff(l, p);
    var f := Filter(l, p);
    if f == [] then Nil else Slice(f)
  }

  function WithReferenceID(referenceId: string): Message -> bool {
    (m: Message) => m.referenceId == referenceId
  }

  function WithResponseToID(responseToId: string): Message -> bool {
    (m: Message) => m.responseToId == responseToId
  }

  function WithSenderID(senderId: string): Message -> bool {
    (m: Message) => m.senderId == senderId
  }

  function WithRole(role: ConversationRoles.ConversationRole): Message -> bool {
    (m: Message) => m.role == role
  }

  function WithType(mtype: MessageTypes.MessageType): Message -> bool {
    (m: Message) => m.mtype == mtype
  }

  function GetMessagesByReferenceID(l: MessageList, referenceId: string): (r: Slice<Message>)
    ensures r.Nil? <==> forall i :: 0 <= i < |l| ==> l[i].referenceId != referenceId
    ensures r.Elements() == Filter(l, WithReferenceID(referenceId))
  {
    Select(l, WithReferenceID(referenceId))
  }

  function GetMessagesByResponseToID(l: MessageList, responseToId: string): (r: Slice<Message>)
    ensures r.Nil? <==> forall i :: 0 <= i < |l| ==> l[i].responseToId != responseToId
    ensures r.Elements() == Filter(l, WithResponseToID(responseToId))
  {
    Select(l, WithResponseToID(responseToId))
  }

  function GetMessagesBySenderID(l: MessageList, senderId: string): (r: Slice<Message>)
    ensures r.Nil? <==> forall i :: 0 <= i < |l| ==> l[i].senderId != senderId
    ensures r.Elements() == Filter(l, WithSenderID(senderId))
  {
    Select(l, WithSenderID(senderId))
  }

  function GetMessagesByRole(l: MessageList, role: ConversationRoles.ConversationRole): (r: Slice<Message>)
    ensures r.Nil? <==> forall i :: 0 <= i < |l| ==> l[i].role != role
    ensures r.Elements() == Filter(l, WithRole(role))
  {
    Select(l, WithRole(role))
  }

  function GetMessagesByType(l: MessageList, mtype: MessageTypes.MessageType): (r: Slice<Message>)
    ensures r.Nil? <==> forall i :: 0 <= i < |l| ==> l[i].mtype != mtype
    ensures r.Elements() == Filter(l, WithType(mtype))
  {
    Select(l, WithType(mtype))
  }

  /** Every lookup returns exactly the matching messages, each as often as it
      occurs in the list. */
  lemma LookupExact(l: MessageList, p: Message -> bool, m: Message)
    ensures m in Select(l, p).Elements() <==> m in l && p(m)
    ensures multiset(Select(l, p).Elements())[m] == if p(m) then multiset(l)[m] else 0
  {
    FilterMembership(l, p, m);
    FilterMultiset(l, p, m);
  }

  /** The index the backwards scan of `GetLatestMessageByType` stops at, or -1. */
  function LastIndexOfType(l: MessageList, mtype: MessageTypes.MessageType): (r: int)
    ensures -1 <= r < |l|
    ensures r >= 0 ==> l[r].mtype == mtype && forall k :: r < k < |l| ==> l[k].mtype != mtype
    ensures r < 0 ==> forall k :: 0 <= k < |l| ==> l[k].mtype != mtype
    decreases |l|
  {
    if l == [] then -1
    else if l[|l| - 1].mtype == mtype then |l| - 1
    else LastIndexOfType(l[..|l| - 1], mtype)
  }

  /** `GetLatestMessageByType`: the last message of that type, or nil. */
  function GetLatestMessageByType(l: MessageList, mtype: MessageTypes.MessageType): (r: Option<Message>)
    ensures r.None? <==> forall k :: 0 <= k < |l| ==> l[k].mtype != mtype
    ensures r.Some? ==>
      exists i :: 0 <= i < |l| && l[i] == r.value && r.value.mtype == mtype &&
        forall k :: i < k < |l| ==> l[k].mtype != mtype
  {
    var i := LastIndexOfType(l, mtype);
    if i < 0 then None else Some(l[i])
  }

  /** The latest message of a type is the last one the type lookup lists. */
  lemma LatestIsLastOfLookup(l: MessageList, mtype: MessageTypes.MessageType)
    ensures GetLatestMessageByType(l, mtype) == LastWhere(l, WithType(mtype))
  {
    LastOfFilter(l, mtype);
  }

  lemma LastOfFilter(l: MessageList, mtype: MessageTypes.MessageType)
    ensures var f := Filter(l, WithType(mtype));
      (f == [] <==> LastIndexOfType(l, mtype) < 0) &&
      (f != [] ==> f[|f| - 1] == l[LastIndexOfType(l, mtype)])
  {
    var p := WithType(mtype);
    FilterEmptyIff(l, p);
    var r := LastIndexOfType(l, mtype);
    if r >= 0 {
      FilterLast(l, p, r);
    }
  }

  /** `GetFirstMessageByType`: a list holding the first message of that type,
      nil when there is none. */
  function GetFirstMessageByType(l: MessageList, mtype: MessageTypes.MessageType): (r: Slice<Message>)
    ensures r.Nil? <==> forall k :: 0 <= k < |l| ==> l[k].mtype != mtype
    ensures |r.Elements()| <= 1
    ensures r.Slice? ==>
      exists i :: 0 <= i < |l| && r.items == [l[i]] && l[i].mtype == mtype &&
        forall k :: 0 <= k < i ==> l[k].mtype != mtype
  {
    var f := Filter(l, WithType(mtype));
    FilterEmptyIff(l, WithType(mtype));
    if f == [] then Nil
    else
      FirstOfFilter(l, WithType(mtype));
      Slice([f[0]])
  }

  lemma {:induction false} FirstOfFilter(l: MessageList, p: Message -> bool)
    requires Filter(l, p) != []
    ensures exists i :: 0 <= i < |l| && l[i] == Filter(l, p)[0] && p(l[i]) && forall k :: 0 <= k < i ==> !p(l[k])
    decreases |l|
  {
    if !p(l[0]) {
      FirstOfFilter(l[1..], p);
      var i :| 0 <= i < |l[1..]| && l[1..][i] == Filter(l[1..], p)[0] && p(l[1..][i]) &&
        forall k :: 0 <= k < i ==> !p(l[1..][k]);
      assert l[i + 1] == l[1..][i];
      forall k | 0 <= k < i + 1
        ensures !p(l[k])
      {
        if k > 0 {
          assert l[k] == l[1..][k - 1];
        }
      }
    }
  }

  // ------------------------------------------------------------ role sequences

  type Strategy = string

  const Ignore: Strategy := "ignore"
  const Delete: Strategy := "delete"
  const Merge: Strategy := "merge"
  const InsertSeparators: Strategy := "insertSeparators"

  type KeepParameter = string

  const KeepNewest: KeepParameter := "keepNewest"
  const KeepOldest: KeepParameter := "keepOldest"

  datatype ResolveOptions = ResolveOptions(resolveStrategy: Strategy, keepParameter: KeepParameter, separatorContent: string)

  /** All messages of a run have the role of its first one. */
  predicate SameRole(run: seq<Message>) {
    forall i :: 0 <= i < |run| ==> run[i].role == run[0].role
  }

  /** The runs laid end to end. */
  function Flatten(rs: seq<seq<Message>>): seq<Message>
    decreases |rs|
  {
    if rs == [] then [] else Flatten(rs[..|rs| - 1]) + rs[|rs| - 1]
  }

  lemma FlattenSnoc(rs: seq<seq<Message>>, run: seq<Message>)
    ensures Flatten(rs + [run]) == Flatten(rs) + run
  {
    assert (rs + [run])[..|rs|] == rs;
  }

  /** Non-empty single-role runs, neighbours differing in role: the maximal runs. */
  predicate IsRuns(rs: seq<seq<Message>>) {
    (forall k :: 0 <= k < |rs| ==> |rs[k]| > 0 && SameRole(rs[k])) &&
    (forall k :: 0 <= k < |rs| - 1 ==> rs[k][0].role != rs[k + 1][0].role)
  }

  /** The maximal runs of consecutive messages with the same role, as the
      resolution loop collects them. */
  function Runs(l: seq<Message>): (rs: seq<seq<Message>>)
    ensures |rs| == 0 <==> |l| == 0
    ensures Flatten(rs) == l
    ensures IsRuns(rs)
    ensures |rs| > 0 ==> rs[|rs| - 1][0].role == l[|l| - 1].role
    decreases |l|
  {
    if l == [] then []
    else
      var init, m := l[..|l| - 1], l[|l| - 1];
      assert l == init + [m];
      var rs := Runs(init);
      if rs != [] && m.role == rs[|rs| - 1][0].role then
        ExtendLastRun(rs, m);
        rs[..|rs| - 1] + [rs[|rs| - 1] + [m]]
      else
        StartRun(rs, m);
        rs + [[m]]
  }

  /** A message with the role of the last run joins it. */
  lemma ExtendLastRun(rs: seq<seq<Message>>, m: Message)
    requires IsRuns(rs) && rs != [] && m.role == rs[|rs| - 1][0].role
    ensures var rs2 := rs[..|rs| - 1] + [rs[|rs| - 1] + [m]];
      IsRuns(rs2) && Flatten(rs2) == Flatten(rs) + [m] && |rs2| == |rs| && rs2[|rs2| - 1][0].role == m.role
  {
    var prefix, last := rs[..|rs| - 1], rs[|rs| - 1];
    var rs2 := prefix + [last + [m]];
    assert rs == prefix + [last];
    FlattenSnoc(prefix, last);
    FlattenSnoc(prefix, last + [m]);
    assert forall k :: 0 <= k < |prefix| ==> rs2[k] == rs[k];
    assert rs2[|rs2| - 1][0] == last[0];
  }

  /** A message with another role starts a new run. */
  lemma StartRun(rs: seq<seq<Message>>, m: Message)
    requires IsRuns(rs) && (rs == [] || m.role != rs[|rs| - 1][0].role)
    ensures var rs2 := rs + [[m]];
      IsRuns(rs2) && Flatten(rs2) == Flatten(rs) + [m] && rs2[|rs2| - 1][0].role == m.role
  {
    FlattenSnoc(rs, [m]);
  }

  /** The message `delete` keeps from a run. */
  function Pick(run: seq<Message>, keepNewest: bool): (m: Message)
    requires |run| > 0
    ensures m in run
  {
    if keepNewest then run[|run| - 1] else run[0]
  }

  // The merge strategy

  function AllContents(run: seq<Message>): seq<Content>
    decreases |run|
  {
    if run == [] then []
    else
      var m := run[|run| - 1];
      AllContents(run[..|run| - 1]) + (if m.content.Some? then m.content.value.data else [])
  }

  function AllAttachments(run: seq<Message>): seq<MessageFiles.MessageFile>
    decreases |run|
  {
    if run == [] then []
    else
      var m := run[|run| - 1];
      AllAttachments(run[..|run| - 1]) + (if m.attachments.Some? then m.attachments.value else [])
  }

  function TotalTokens(run: seq<Message>): int
    decreases |run|
  {
    if run == [] then 0 else TotalTokens(run[..|run| - 1]) + run[|run| - 1].tokenCount
  }

  lemma {:induction false} TotalTokensAppend(a: seq<Message>, b: seq<Message>)
    ensures TotalTokens(a + b) == TotalTokens(a) + TotalTokens(b)
    decreases |b|
  {
    if b == [] {
      assert a + b == a;
    } else {
      assert (a + b)[..|a + b| - 1] == a + b[..|b| - 1];
      TotalTokensAppend(a, b[..|b| - 1]);
    }
  }

  /** The maps picked by `sel` merged in run order, later keys overriding earlier ones. */
  function MergeMaps(run: seq<Message>, sel: Message -> map<string, Adapters.Value>): map<string, Adapters.Value>
    decreases |run|
  {
    if run == [] then map[] else MergeMaps(run[..|run| - 1], sel) + sel(run[|run| - 1])
  }

  /** The value a merged map holds: the one of the last message that has the key. */
  lemma {:induction false} MergeMapsLastWins(run: seq<Message>, sel: Message -> map<string, Adapters.Value>, k: string)
    ensures k in MergeMaps(run, sel) <==> exists i :: 0 <= i < |run| && k in sel(run[i])
    ensures k in MergeMaps(run, sel) ==>
      exists i :: 0 <= i < |run| && k in sel(run[i]) && MergeMaps(run, sel)[k] == sel(run[i])[k] &&
        forall j :: i < j < |run| ==> k !in sel(run[j])
    decreases |run|
  {
    if run != [] {
      var init := run[..|run| - 1];
      MergeMapsLastWins(init, sel, k);
      if exists i :: 0 <= i < |init| && k in sel(init[i]) {
        var i :| 0 <= i < |init| && k in sel(init[i]);
        assert run[i] == init[i];
      }
      if k in MergeMaps(run, sel) && k !in sel(run[|run| - 1]) {
        var i :| 0 <= i < |init| && k in sel(init[i]) && MergeMaps(init, sel)[k] == sel(init[i])[k] &&
          forall j :: i < j < |init| ==> k !in sel(init[j]);
        assert run[i] == init[i];
        forall j | i < j < |run|
          ensures k !in sel(run[j])
        {
          if j < |init| {
            assert run[j] == init[j];
          }
        }
      }
    }
  }

  /** The content items added to a list one after the other, as the merge loop does. */
  function AddAll(l: ContentList, cs: seq<Content>): Run<ContentList>
    decreases |cs|
  {
    if cs == [] then Done(l)
    else
      match AddContent(l, cs[0])
      case Panic(m) => Panic(m)
      case Done(l2) => AddAll(l2, cs[1..])
  }

  lemma HasNilFileAppend(a: seq<Content>, b: seq<Content>)
    ensures HasNilFile(a + b) <==> HasNilFile(a) || HasNilFile(b)
  {
    if HasNilFile(a) {
      var i :| 0 <= i < |a| && a[i].contentType == FileContent && a[i].file.None?;
      assert (a + b)[i] == a[i];
    }
    if HasNilFile(b) {
      var i :| 0 <= i < |b| && b[i].contentType == FileContent && b[i].file.None?;
      assert (a + b)[|a| + i] == b[i];
    }
    if HasNilFile(a + b) {
      var i :| 0 <= i < |a + b| && (a + b)[i].contentType == FileContent && (a + b)[i].file.None?;
      if i < |a| {
        assert (a + b)[i] == a[i];
      } else {
        assert (a + b)[i] == b[i - |a|];
      }
    }
  }

  /** Adding items one by one panics exactly when one of them is a file item
      without a file; otherwise it appends them all. */
  lemma {:induction false} AddAllAppends(l: ContentList, cs: seq<Content>)
    requires !HasNilFile(l.data)
    ensures AddAll(l, cs).Panic? <==> HasNilFile(cs)
    ensures AddAll(l, cs).Done? ==>
      AddAll(l, cs).value.data == l.data + cs && AddAll(l, cs).value.separator == l.separator
    decreases |cs|
  {
    if cs == [] {
      assert l.data + cs == l.data;
    } else {
      var c, rest := cs[0], cs[1..];
      assert cs == [c] + rest;
      HasNilFileAppend(l.data, [c]);
      HasNilFileAppend([c], rest);
      var r := AddContent(l, c);
      if r.Done? {
        AddAllAppends(r.value, rest);
        assert l.data + [c] + rest == l.data + cs;
      }
    }
  }

  /** Adding items one by one to a synced list leaves it synced. */
  lemma {:induction false} AddAllSynced(l: ContentList, cs: seq<Content>)
    requires Synced(l)
    ensures AddAll(l, cs).Done? ==> Synced(AddAll(l, cs).value)
    decreases |cs|
  {
    if cs != [] {
      var r := AddContent(l, cs[0]);
      if r.Done? {
        AddAllSynced(r.value, cs[1..]);
      }
    }
  }

  /** `merge` on a run of two or more: one message with the first message's
      role, thread and routing fields, the kept message's id and times, and the
      contents, attachments, token counts and maps of the whole run. */
  function MergeRun(run: seq<Message>, keepNewest: bool): (r: Run<Message>)
    requires |run| > 0
    ensures r.Panic? <==> HasNilFile(AllContents(run))
    ensures r.Done? ==> r.value.role == run[0].role && r.value.tokenCount == TotalTokens(run)
    ensures r.Done? ==>
      r.value.id == Pick(run, keepNewest).id && r.value.createdAt == Pick(run, keepNewest).createdAt &&
      r.value.updatedAt == Pick(run, keepNewest).updatedAt
    ensures r.Done? ==>
      r.value.content.Some? && r.value.content.value.data == AllContents(run) &&
      Synced(r.value.content.value) && r.value.attachments == Some(AllAttachments(run))
  {
    var first, kept := run[0], Pick(run, keepNewest);
    assert Included([], true, false) == [];
    AddAllAppends(NewContentList(), AllContents(run));
    AddAllSynced(NewContentList(), AllContents(run));
    match AddAll(NewContentList(), AllContents(run))
    case Panic(reason) => Panic(reason)
    case Done(content) =>
      Done(Message(
        kept.id, first.mtype, first.referenceId, first.responseToId, first.missionId,
        first.channelId, first.channelName, first.threadId, first.senderId, first.senderName,
        first.role, first.ownerOrganizationId,
        MergeMaps(run, (m: Message) => m.metaData),
        MergeMaps(run, (m: Message) => m.completionParameters),
        MergeMaps(run, (m: Message) => m.chatCompletionConfig),
        Some(content), Some(AllAttachments(run)), TotalTokens(run),
        first.tokenDirection, first.aiServiceId, first.aiModelId,
        kept.createdAt, kept.updatedAt, "", first.createdForFeature))
  }

  // The insertSeparators strategy

  /** The content of a separator message: one text item, added to a new list. */
  function SeparatorContent(text: string): (l: ContentList)
    ensures l.data == [NewContent(TextContent, Some(text), None)] && l.fullText == text
  {
    var item := NewContent(TextContent, Some(text), None);
    assert !HasNilFile(NewContentList().data + [item]);
    assert Included([item], true, false) == [text] by {
      FilterAllKept([item], Includes(true, false));
    }
    AddContent(NewContentList(), item).value
  }

  /** The system message inserted before `next`, created just before it. */
  function Separator(next: Message, text: string, id: string): (s: Message)
    ensures s.role == ConversationRoles.System && s.senderId == "system" && s.senderName == "System"
    ensures s.createdAt == next.createdAt - 1 && s.updatedAt == next.createdAt - 1
    ensures s.threadId == next.threadId && s.missionId == next.missionId && s.channelId == next.channelId
    ensures s.content == Some(SeparatorContent(text))
  {
    Message(
      id, MessageTypes.Message, "", "", next.missionId, next.channelId, next.channelName, next.threadId,
      "system", "System", ConversationRoles.System, next.ownerOrganizationId,
      map[], map[], map[], Some(SeparatorContent(text)), None, 0, "",
      next.aiServiceId, next.aiModelId, next.createdAt - 1, next.createdAt - 1, "",
      AIModels.Feature("", [], [], []))
  }

  /** `run` with `between(next)` placed before every element but the first. */
  function Interleave<T>(run: seq<T>, between: T -> T): (r: seq<T>)
    requires |run| > 0
    ensures |r| == 2 * |run| - 1
    ensures forall j :: 0 <= j < |run| ==> r[2 * j] == run[j]
    ensures forall j :: 0 <= j < |run| - 1 ==> r[2 * j + 1] == between(run[j + 1])
    decreases |run|
  {
    if |run| == 1 then run
    else
      var init, m := run[..|run| - 1], run[|run| - 1];
      var w := Interleave(init, between);
      assert forall j :: 0 <= j < |init| ==> init[j] == run[j];
      w + [between(m), m]
  }

  /** Which positions of `Interleave(run, _)` hold an inserted element. */
  function InterleaveMarks(n: nat): (m: seq<bool>)
    requires n > 0
    ensures |m| == 2 * n - 1
    decreases n
  {
    if n == 1 then [false] else InterleaveMarks(n - 1) + [true, false]
  }

  lemma InterleaveStep<T>(run: seq<T>, between: T -> T)
    requires |run| > 1
    ensures Interleave(run, between) == Interleave(run[..|run| - 1], between) + [between(run[|run| - 1]), run[|run| - 1]]
    ensures InterleaveMarks(|run|) == InterleaveMarks(|run| - 1) + [true, false]
  {
  }

  lemma UnmarkedPair<T>(a: T, b: T)
    ensures Unmarked([a, b], [true, false]) == [b]
  {
    assert [a, b][..1] == [a] && [true, false][..1] == [true];
    assert [a][..0] == [] && [true][..0] == [];
    assert Unmarked([a], [true]) == Unmarked([], []) + [];
    assert Unmarked([a, b], [true, false]) == Unmarked([a], [true]) + [b];
  }

  /** Removing the inserted elements gives the run back. */
  lemma {:induction false} InterleaveUnmarked<T>(run: seq<T>, between: T -> T)
    requires |run| > 0
    ensures Unmarked(Interleave(run, between), InterleaveMarks(|run|)) == run
    decreases |run|
  {
    if |run| > 1 {
      var init, m := run[..|run| - 1], run[|run| - 1];
      InterleaveUnmarked(init, between);
      InterleaveStep(run, between);
      UnmarkedAppend(Interleave(init, between), InterleaveMarks(|init|), [between(m), m], [true, false]);
      UnmarkedPair(between(m), m);
      assert init + [m] == run;
    } else {
      assert run[..0] == [];
    }
  }

  /** Each inserted element is `between` of the element that follows it. */
  lemma {:induction false} InterleaveMarkedBefore<T>(run: seq<T>, between: T -> T)
    requires |run| > 0
    ensures MarkedBefore(Interleave(run, between), InterleaveMarks(|run|), between)
    decreases |run|
  {
    if |run| > 1 {
      var init, m := run[..|run| - 1], run[|run| - 1];
      InterleaveMarkedBefore(init, between);
      InterleaveStep(run, between);
      MarkedBeforeAppend(Interleave(init, between), InterleaveMarks(|init|), [between(m), m], [true, false], between);
    }
  }

  function SeparatorBefore(text: string, mintId: Message -> string): Message -> Message {
    (next: Message) => Separator(next, text, mintId(next))
  }

  /** A run with a separator before every message but the first. The id of a
      new separator comes from `mintId`, given the message it precedes. */
  function WithSeparators(run: seq<Message>, text: string, mintId: Message -> string): (r: seq<Message>)
    requires |run| > 0
    ensures |r| == 2 * |run| - 1
    ensures forall j :: 0 <= j < |run| ==> r[2 * j] == run[j]
    ensures forall j :: 0 <= j < |run| - 1 ==> r[2 * j + 1] == Separator(run[j + 1], text, mintId(run[j + 1]))
  {
    Interleave(run, SeparatorBefore(text, mintId))
  }

  /** `resolveViolation` for one run. */
  function ResolveRun(run: seq<Message>, opts: ResolveOptions, mintId: Message -> string): (r: Run<seq<Message>>)
    requires |run| > 0
    ensures |run| == 1 ==> r == Done(run)
    ensures opts.resolveStrategy == Delete ==> r == Done([Pick(run, opts.keepParameter == KeepNewest)])
    ensures opts.resolveStrategy == InsertSeparators ==> r == Done(WithSeparators(run, opts.separatorContent, mintId))
    ensures opts.resolveStrategy !in {Delete, Merge, InsertSeparators} ==> r == Done(run)
  {
    if |run| == 1 then
      assert run == [Pick(run, opts.keepParameter == KeepNewest)];
      Done(run)
    else if opts.resolveStrategy == Ignore then Done(run)
    else if opts.resolveStrategy == Delete then Done([Pick(run, opts.keepParameter == KeepNewest)])
    else if opts.resolveStrategy == Merge then
      match MergeRun(run, opts.keepParameter == KeepNewest)
      case Panic(reason) => Panic(reason)
      case Done(merged) => Done([merged])
    else if opts.resolveStrategy == InsertSeparators then Done(WithSeparators(run, opts.separatorContent, mintId))
    else Done(run)
  }

  predicate NonEmptyRuns(rs: seq<seq<Message>>) {
    forall k :: 0 <= k < |rs| ==> |rs[k]| > 0
  }

  /** Every run resolved, the results laid end to end; the first panic wins. */
  function ResolveAll(rs: seq<seq<Message>>, opts: ResolveOptions, mintId: Message -> string): Run<seq<Message>>
    requires NonEmptyRuns(rs)
    decreases |rs|
  {
    if rs == [] then Done([])
    else
      match ResolveAll(rs[..|rs| - 1], opts, mintId)
      case Panic(reason) => Panic(reason)
      case Done(a) =>
        match ResolveRun(rs[|rs| - 1], opts, mintId)
        case Panic(reason) => Panic(reason)
        case Done(b) => Done(a + b)
  }

  /** `ResolveRoleSequenceViolations`: lists shorter than two are left alone;
      otherwise every maximal same-role run is resolved by the strategy. */
  function ResolveRoleSequenceViolations(l: MessageList, opts: ResolveOptions, mintId: Message -> string): (r: Run<MessageList>)
    ensures |l| < 2 ==> r == Done(l)
    ensures |l| >= 2 ==> r == ResolveAll(Runs(l), opts, mintId)
  {
    if |l| < 2 then Done(l) else ResolveAll(Runs(l), opts, mintId)
  }

  /** "ignore" and unknown strategies keep every run, so the list is unchanged. */
  lemma {:induction false} KeepingStrategiesChangeNothing(rs: seq<seq<Message>>, opts: ResolveOptions, mintId: Message -> string)
    requires NonEmptyRuns(rs)
    requires opts.resolveStrategy !in {Delete, Merge, InsertSeparators}
    ensures ResolveAll(rs, opts, mintId) == Done(Flatten(rs))
    decreases |rs|
  {
    if rs != [] {
      KeepingStrategiesChangeNothing(rs[..|rs| - 1], opts, mintId);
    }
  }

  lemma IgnoreKeepsList(l: MessageList, opts: ResolveOptions, mintId: Message -> string)
    requires opts.resolveStrategy !in {Delete, Merge, InsertSeparators}
    ensures ResolveRoleSequenceViolations(l, opts, mintId) == Done(l)
  {
    if |l| >= 2 {
      KeepingStrategiesChangeNothing(Runs(l), opts, mintId);
    }
  }

  /** "delete" keeps one message per run: the newest with "keepNewest", the oldest otherwise. */
  lemma {:induction false} DeleteKeepsOnePerRun(rs: seq<seq<Message>>, opts: ResolveOptions, mintId: Message -> string)
    requires NonEmptyRuns(rs)
    requires opts.resolveStrategy == Delete
    ensures ResolveAll(rs, opts, mintId).Done?
    ensures var x := ResolveAll(rs, opts, mintId).value;
      |x| == |rs| && forall k :: 0 <= k < |rs| ==> x[k] == Pick(rs[k], opts.keepParameter == KeepNewest)
    decreases |rs|
  {
    if rs != [] {
      var init := rs[..|rs| - 1];
      DeleteKeepsOnePerRun(init, opts, mintId);
      assert forall k :: 0 <= k < |init| ==> init[k] == rs[k];
    }
  }

  /** No two neighbours share a role. */
  predicate Alternating(l: seq<Message>) {
    forall k :: 0 <= k < |l| - 1 ==> l[k].role != l[k + 1].role
  }

  /** After "delete" each run has shrunk to one message and the roles alternate. */
  lemma DeleteResolves(l: MessageList, opts: ResolveOptions, mintId: Message -> string)
    requires |l| >= 2 && opts.resolveStrategy == Delete
    ensures ResolveRoleSequenceViolations(l, opts, mintId).Done?
    ensures var x := ResolveRoleSequenceViolations(l, opts, mintId).value;
      |x| == |Runs(l)| &&
      (forall k :: 0 <= k < |x| ==> x[k] == Pick(Runs(l)[k], opts.keepParameter == KeepNewest)) &&
      Alternating(x)
  {
    var rs := Runs(l);
    DeleteKeepsOnePerRun(rs, opts, mintId);
    var x := ResolveAll(rs, opts, mintId).value;
    forall k | 0 <= k < |x| - 1
      ensures x[k].role != x[k + 1].role
    {
      assert x[k].role == rs[k][0].role;
      assert x[k + 1].role == rs[k + 1][0].role;
    }
  }

  /** The merged form of a run: the run itself when it has one message. */
  predicate MergedFrom(run: seq<Message>, m: Message, keepNewest: bool)
    requires |run| > 0
  {
    if |run| == 1 then m == run[0] else MergeRun(run, keepNewest) == Done(m)
  }

  /** "merge" panics exactly when a run of two or more carries a file item without a file. */
  lemma {:induction false} MergePanicsIff(rs: seq<seq<Message>>, opts: ResolveOptions, mintId: Message -> string)
    requires NonEmptyRuns(rs)
    requires opts.resolveStrategy == Merge
    ensures ResolveAll(rs, opts, mintId).Panic? <==>
      exists k :: 0 <= k < |rs| && |rs[k]| >= 2 && HasNilFile(AllContents(rs[k]))
    decreases |rs|
  {
    if rs != [] {
      var init, last := rs[..|rs| - 1], rs[|rs| - 1];
      MergePanicsIff(init, opts, mintId);
      assert forall k :: 0 <= k < |init| ==> init[k] == rs[k];
      assert ResolveRun(last, opts, mintId).Panic? <==> |last| >= 2 && HasNilFile(AllContents(last));
    }
  }

  /** "merge" yields one message per run. */
  lemma {:induction false} MergeOnePerRun(rs: seq<seq<Message>>, opts: ResolveOptions, mintId: Message -> string)
    requires NonEmptyRuns(rs)
    requires opts.resolveStrategy == Merge
    requires ResolveAll(rs, opts, mintId).Done?
    ensures var x := ResolveAll(rs, opts, mintId).value;
      |x| == |rs| && forall k :: 0 <= k < |rs| ==> MergedFrom(rs[k], x[k], opts.keepParameter == KeepNewest)
    decreases |rs|
  {
    if rs != [] {
      var init, last := rs[..|rs| - 1], rs[|rs| - 1];
      MergeOnePerRun(init, opts, mintId);
      var a := ResolveAll(init, opts, mintId).value;
      var b := ResolveRun(last, opts, mintId).value;
      assert |b| == 1 && MergedFrom(last, b[0], opts.keepParameter == KeepNewest);
      assert forall k :: 0 <= k < |init| ==> init[k] == rs[k];
    }
  }

  /** A merged message keeps the run's role and its total token count. */
  lemma MergedKeepsRoleAndTokens(run: seq<Message>, m: Message, keepNewest: bool)
    requires |run| > 0 && MergedFrom(run, m, keepNewest)
    ensures m.role == run[0].role && m.tokenCount == TotalTokens(run)
  {
    if |run| == 1 {
      assert run[..0] == [];
    }
  }

  /** After "merge" the roles alternate and no token is lost or counted twice. */
  lemma MergeResolves(l: MessageList, opts: ResolveOptions, mintId: Message -> string)
    requires |l| >= 2 && opts.resolveStrategy == Merge
    requires ResolveRoleSequenceViolations(l, opts, mintId).Done?
    ensures var x := ResolveRoleSequenceViolations(l, opts, mintId).value;
      |x| == |Runs(l)| && Alternating(x) && TotalTokens(x) == TotalTokens(l)
  {
    var rs := Runs(l);
    var keep := opts.keepParameter == KeepNewest;
    MergeOnePerRun(rs, opts, mintId);
    var x := ResolveAll(rs, opts, mintId).value;
    forall k | 0 <= k < |x|
      ensures x[k].role == rs[k][0].role && x[k].tokenCount == TotalTokens(rs[k])
    {
      MergedKeepsRoleAndTokens(rs[k], x[k], keep);
    }
    forall k | 0 <= k < |x| - 1
      ensures x[k].role != x[k + 1].role
    {
      assert x[k].role == rs[k][0].role && x[k + 1].role == rs[k + 1][0].role;
    }
    TokensOfMerged(rs, x);
  }

  lemma {:induction false} TokensOfMerged(rs: seq<seq<Message>>, x: seq<Message>)
    requires |x| == |rs|
    requires forall k :: 0 <= k < |rs| ==> x[k].tokenCount == TotalTokens(rs[k])
    ensures TotalTokens(x) == TotalTokens(Flatten(rs))
    decreases |rs|
  {
    if rs != [] {
      var n := |rs| - 1;
      TokensOfMerged(rs[..n], x[..n]);
      TotalTokensAppend(Flatten(rs[..n]), rs[n]);
    }
  }

  /** "insertSeparators" turns a run of k messages into 2k-1 and never panics. */
  lemma {:induction false} SeparatorsLength(rs: seq<seq<Message>>, opts: ResolveOptions, mintId: Message -> string)
    requires NonEmptyRuns(rs)
    requires opts.resolveStrategy == InsertSeparators
    ensures ResolveAll(rs, opts, mintId).Done?
    ensures |ResolveAll(rs, opts, mintId).value| == 2 * |Flatten(rs)| - |rs|
    decreases |rs|
  {
    if rs != [] {
      SeparatorsLength(rs[..|rs| - 1], opts, mintId);
    }
  }

  /** Which positions of the "insertSeparators" result hold a separator. */
  function SeparatorMarks(rs: seq<seq<Message>>): (m: seq<bool>)
    requires NonEmptyRuns(rs)
    decreases |rs|
  {
    if rs == [] then [] else SeparatorMarks(rs[..|rs| - 1]) + InterleaveMarks(|rs[|rs| - 1]|)
  }

  /** One step of `ResolveAll`: the last run's result after the others'. */
  lemma ResolveAllStep(rs: seq<seq<Message>>, opts: ResolveOptions, mintId: Message -> string)
    requires NonEmptyRuns(rs) && rs != []
    requires NonEmptyRuns(rs[..|rs| - 1]) && ResolveAll(rs[..|rs| - 1], opts, mintId).Done?
    requires ResolveRun(rs[|rs| - 1], opts, mintId).Done?
    ensures ResolveAll(rs, opts, mintId) ==
      Done(ResolveAll(rs[..|rs| - 1], opts, mintId).value + ResolveRun(rs[|rs| - 1], opts, mintId).value)
  {
  }

  lemma SeparatedRun(run: seq<Message>, opts: ResolveOptions, mintId: Message -> string)
    requires |run| > 0 && opts.resolveStrategy == InsertSeparators
    ensures ResolveRun(run, opts, mintId) == Done(Interleave(run, SeparatorBefore(opts.separatorContent, mintId)))
  {
  }

  /** Removing the separators gives back the messages of the runs. */
  lemma {:induction false} SeparatorsUnmarked(rs: seq<seq<Message>>, opts: ResolveOptions, mintId: Message -> string)
    requires NonEmptyRuns(rs)
    requires opts.resolveStrategy == InsertSeparators
    ensures ResolveAll(rs, opts, mintId).Done?
    ensures var x := ResolveAll(rs, opts, mintId).value;
      |x| == |SeparatorMarks(rs)| && Unmarked(x, SeparatorMarks(rs)) == Flatten(rs)
    decreases |rs|
  {
    if rs != [] {
      var init, last := rs[..|rs| - 1], rs[|rs| - 1];
      assert NonEmptyRuns(init);
      SeparatorsUnmarked(init, opts, mintId);
      SeparatedRun(last, opts, mintId);
      ResolveAllStep(rs, opts, mintId);
      var between := SeparatorBefore(opts.separatorContent, mintId);
      var a := ResolveAll(init, opts, mintId).value;
      InterleaveUnmarked(last, between);
      UnmarkedAppend(a, SeparatorMarks(init), Interleave(last, between), InterleaveMarks(|last|));
    }
  }

  /** Every separator is the one made for the message right after it. */
  lemma {:induction false} SeparatorsPrecede(rs: seq<seq<Message>>, opts: ResolveOptions, mintId: Message -> string)
    requires NonEmptyRuns(rs)
    requires opts.resolveStrategy == InsertSeparators
    ensures ResolveAll(rs, opts, mintId).Done?
    ensures MarkedBefore(ResolveAll(rs, opts, mintId).value, SeparatorMarks(rs), SeparatorBefore(opts.separatorContent, mintId))
    decreases |rs|
  {
    if rs != [] {
      var init, last := rs[..|rs| - 1], rs[|rs| - 1];
      assert NonEmptyRuns(init);
      SeparatorsPrecede(init, opts, mintId);
      SeparatedRun(last, opts, mintId);
      ResolveAllStep(rs, opts, mintId);
      var between := SeparatorBefore(opts.separatorContent, mintId);
      InterleaveMarkedBefore(last, between);
      MarkedBeforeAppend(ResolveAll(init, opts, mintId).value, SeparatorMarks(init), Interleave(last, between), InterleaveMarks(|last|), between);
    }
  }

  /** Neighbours share a role only when both are system messages. */
  predicate SharesOnlySystem(x: seq<Message>) {
    forall k :: 0 <= k < |x| - 1 && x[k].role == x[k + 1].role ==> x[k].role == ConversationRoles.System
  }

  /** A separated run keeps its last message at the end. */
  lemma SeparatedRunEnds(run: seq<Message>, text: string, mintId: Message -> string)
    requires |run| > 0
    ensures var r := WithSeparators(run, text, mintId); r[|r| - 1] == run[|run| - 1]
  {
    var r := WithSeparators(run, text, mintId);
    assert r[2 * (|run| - 1)] == run[|run| - 1];
  }

  /** Every two neighbours in `r` are one `p` element and one `q` element,
      in either order. */
  predicate Neighbours<T>(r: seq<T>, p: T -> bool, q: T -> bool) {
    forall k {:trigger r[k]} :: 0 <= k < |r| - 1 ==> (p(r[k]) && q(r[k + 1])) || (q(r[k]) && p(r[k + 1]))
  }

  lemma NeighbourAt<T>(r: seq<T>, p: T -> bool, q: T -> bool, k: int)
    requires Neighbours(r, p, q) && 0 <= k < |r| - 1
    ensures (p(r[k]) && q(r[k + 1])) || (q(r[k]) && p(r[k + 1]))
  {
  }

  /** Neighbours in an interleaved run are one run element and one inserted
      element, in either order. */
  lemma {:induction false} InterleaveNeighbours<T>(run: seq<T>, between: T -> T, p: T -> bool, q: T -> bool)
    requires |run| > 0
    requires forall i :: 0 <= i < |run| ==> p(run[i])
    requires forall i :: 0 <= i < |run| ==> q(between(run[i]))
    ensures Neighbours(Interleave(run, between), p, q)
    decreases |run|
  {
    if |run| > 1 {
      var init, m := run[..|run| - 1], run[|run| - 1];
      InterleaveNeighbours(init, between, p, q);
      InterleaveStep(run, between);
      var w := Interleave(init, between);
      var r := w + [between(m), m];
      assert w[|w| - 1] == w[2 * (|init| - 1)] == init[|init| - 1];
      assert p(r[|w| - 1]) && q(r[|w|]) && p(r[|w| + 1]);
      assert forall k :: 0 <= k < |w| ==> r[k] == w[k];
    }
  }

  function HasRole(role: ConversationRoles.ConversationRole): Message -> bool {
    (m: Message) => m.role == role
  }

  /** In a separated run a system message stands between every two of the
      run's messages, so only system messages can share a role with a
      neighbour, and none do when the run is not a system run. */
  lemma SeparatedRunShares(run: seq<Message>, text: string, mintId: Message -> string)
    requires |run| > 0 && SameRole(run)
    ensures SharesOnlySystem(WithSeparators(run, text, mintId))
    ensures run[0].role != ConversationRoles.System ==> Alternating(WithSeparators(run, text, mintId))
  {
    var between := SeparatorBefore(text, mintId);
    var p, q := HasRole(run[0].role), HasRole(ConversationRoles.System);
    forall i | 0 <= i < |run|
      ensures p(run[i]) && q(between(run[i]))
    {
      assert between(run[i]).role == ConversationRoles.System;
    }
    InterleaveNeighbours(run, between, p, q);
    NeighbourRoles(WithSeparators(run, text, mintId), run[0].role);
  }

  /** Neighbours of which one has `role` and the other is a system message. */
  lemma NeighbourRoles(r: seq<Message>, role: ConversationRoles.ConversationRole)
    requires Neighbours(r, HasRole(role), HasRole(ConversationRoles.System))
    ensures SharesOnlySystem(r)
    ensures role != ConversationRoles.System ==> Alternating(r)
  {
    var p, q := HasRole(role), HasRole(ConversationRoles.System);
    forall k | 0 <= k < |r| - 1
      ensures (r[k].role == role && r[k + 1].role == ConversationRoles.System) ||
              (r[k].role == ConversationRoles.System && r[k + 1].role == role)
    {
      NeighbourAt(r, p, q, k);
    }
  }

  lemma RolesAppend(a: seq<Message>, b: seq<Message>)
    requires a != [] && b != [] && a[|a| - 1].role != b[0].role
    ensures SharesOnlySystem(a) && SharesOnlySystem(b) ==> SharesOnlySystem(a + b)
    ensures Alternating(a) && Alternating(b) ==> Alternating(a + b)
  {
    var x := a + b;
    assert forall i :: 0 <= i < |a| ==> x[i] == a[i];
    assert forall i :: 0 <= i < |b| ==> x[|a| + i] == b[i];
  }

  /** The "insertSeparators" result ends with the last message of the last run. */
  lemma {:induction false} SeparatorsEnd(rs: seq<seq<Message>>, opts: ResolveOptions, mintId: Message -> string)
    requires NonEmptyRuns(rs) && rs != []
    requires opts.resolveStrategy == InsertSeparators
    ensures ResolveAll(rs, opts, mintId).Done?
    ensures var x, last := ResolveAll(rs, opts, mintId).value, rs[|rs| - 1];
      |x| > 0 && x[|x| - 1] == last[|last| - 1]
  {
    var init, last := rs[..|rs| - 1], rs[|rs| - 1];
    assert NonEmptyRuns(init);
    SeparatorsLength(init, opts, mintId);
    SeparatedRun(last, opts, mintId);
    ResolveAllStep(rs, opts, mintId);
    SeparatedRunEnds(last, opts.separatorContent, mintId);
  }

  /** After "insertSeparators" only system messages can share a role with a neighbour. */
  lemma {:induction false} SeparatorsShareOnlySystem(rs: seq<seq<Message>>, opts: ResolveOptions, mintId: Message -> string)
    requires IsRuns(rs)
    requires opts.resolveStrategy == InsertSeparators
    ensures ResolveAll(rs, opts, mintId).Done?
    ensures SharesOnlySystem(ResolveAll(rs, opts, mintId).value)
    decreases |rs|
  {
    if rs != [] {
      var init, last := rs[..|rs| - 1], rs[|rs| - 1];
      assert forall k :: 0 <= k < |init| ==> init[k] == rs[k];
      SeparatorsShareOnlySystem(init, opts, mintId);
      SeparatedRun(last, opts, mintId);
      ResolveAllStep(rs, opts, mintId);
      SeparatedRunShares(last, opts.separatorContent, mintId);
      var a := ResolveAll(init, opts, mintId).value;
      if init != [] {
        SeparatorsEnd(init, opts, mintId);
        assert a[|a| - 1].role == init[|init| - 1][0].role;
        RolesAppend(a, WithSeparators(last, opts.separatorContent, mintId));
      } else {
        assert a == [];
      }
    }
  }

  /** Without system runs, the "insertSeparators" result alternates roles. */
  lemma {:induction false} SeparatorsAlternate(rs: seq<seq<Message>>, opts: ResolveOptions, mintId: Message -> string)
    requires IsRuns(rs)
    requires opts.resolveStrategy == InsertSeparators
    requires forall k :: 0 <= k < |rs| ==> rs[k][0].role != ConversationRoles.System
    ensures ResolveAll(rs, opts, mintId).Done?
    ensures Alternating(ResolveAll(rs, opts, mintId).value)
    decreases |rs|
  {
    if rs != [] {
      var init, last := rs[..|rs| - 1], rs[|rs| - 1];
      assert forall k :: 0 <= k < |init| ==> init[k] == rs[k];
      SeparatorsAlternate(init, opts, mintId);
      SeparatedRun(last, opts, mintId);
      ResolveAllStep(rs, opts, mintId);
      SeparatedRunShares(last, opts.separatorContent, mintId);
      var a := ResolveAll(init, opts, mintId).value;
      if init != [] {
        SeparatorsEnd(init, opts, mintId);
        assert a[|a| - 1].role == init[|init| - 1][0].role;
        RolesAppend(a, WithSeparators(last, opts.separatorContent, mintId));
      } else {
        assert a == [];
      }
    }
  }

  /** After "insertSeparators": no panic; a separator between every two
      same-role neighbours, so only system messages can share a role with a
      neighbour and a list without system messages alternates; removing the
      separators gives the list back, each being the one made for the message
      after it. */
  lemma InsertSeparatorsResolves(l: MessageList, opts: ResolveOptions, mintId: Message -> string)
    requires |l| >= 2 && opts.resolveStrategy == InsertSeparators
    ensures ResolveRoleSequenceViolations(l, opts, mintId).Done?
    ensures var x := ResolveRoleSequenceViolations(l, opts, mintId).value;
      |x| == 2 * |l| - |Runs(l)| &&
      SharesOnlySystem(x) &&
      ((forall i :: 0 <= i < |l| ==> l[i].role != ConversationRoles.System) ==> Alternating(x)) &&
      |x| == |SeparatorMarks(Runs(l))| && Unmarked(x, SeparatorMarks(Runs(l))) == l &&
      MarkedBefore(x, SeparatorMarks(Runs(l)), SeparatorBefore(opts.separatorContent, mintId))
  {
    var rs := Runs(l);
    SeparatorsLength(rs, opts, mintId);
    SeparatorsUnmarked(rs, opts, mintId);
    SeparatorsPrecede(rs, opts, mintId);
    SeparatorsShareOnlySystem(rs, opts, mintId);
    if forall i :: 0 <= i < |l| ==> l[i].role != ConversationRoles.System {
      forall k | 0 <= k < |rs|
        ensures rs[k][0].role != ConversationRoles.System
      {
        RunHeadInList(rs, k);
      }
      SeparatorsAlternate(rs, opts, mintId);
    }
  }

  /** The first message of every run is a message of the flattened list. */
  lemma {:induction false} RunHeadInList(rs: seq<seq<Message>>, k: nat)
    requires NonEmptyRuns(rs) && k < |rs|
    ensures rs[k][0] in Flatten(rs)
    decreases |rs|
  {
    var init, last := rs[..|rs| - 1], rs[|rs| - 1];
    assert Flatten(rs) == Flatten(init) + last;
    if k < |rs| - 1 {
      assert NonEmptyRuns(init) && init[k] == rs[k];
      RunHeadInList(init, k);
    } else {
      assert last[0] == Flatten(rs)[|Flatten(init)|];
    }
  }
}
