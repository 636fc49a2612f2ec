/** Mission identifiers and the mission status log. */
module Missions {
  import opened Wrappers
  import opened Strings

  const MissionIdPrefix: string := "mis"
  const StatusUpdateIdPrefix: string := "msu"
  /** The length of the random part of generated ids; a separator sits between prefix and random part. */
  const IdLength: nat := 16

  /** Lengths are counted in UTF-8 bytes, as Go's `len` counts them. */
  predicate IsMissionID(id: string) {
    Utf8Length(id) == IdLength + |MissionIdPrefix| + 1 && HasPrefix(id, MissionIdPrefix)
  }

  predicate IsMissionStatusUpdateID(id: string) {
    Utf8Length(id) == |StatusUpdateIdPrefix| + 1 + IdLength && HasPrefix(id, StatusUpdateIdPrefix)
  }

  /** The id checks accept exactly the strings of 20 bytes with their prefix;
      for ASCII ids that is 20 characters, and no accepted id is shorter than 5. */
  lemma IdShapes(id: string)
    ensures IsMissionID(id) <==> Utf8Length(id) == 20 && |id| >= 3 && id[..3] == "mis"
    ensures IsMissionStatusUpdateID(id) <==> Utf8Length(id) == 20 && |id| >= 3 && id[..3] == "msu"
    ensures IsAscii(id) ==> (IsMissionID(id) <==> |id| == 20 && id[..3] == "mis")
    ensures IsAscii(id) ==> (IsMissionStatusUpdateID(id) <==> |id| == 20 && id[..3] == "msu")
    ensures IsMissionID(id) || IsMissionStatusUpdateID(id) ==> 5 <= |id| <= 20
  {
    Utf8LengthBounds(id);
  }

  /** A generated id, the prefix, `_` and 16 ASCII characters, passes its own
      check and not the other one; one character fewer fails. */
  lemma GeneratedIdsAccepted(random: string)
    requires IsAscii(random) && |random| == IdLength
    ensures IsMissionID(MissionIdPrefix + "_" + random) && IsMissionStatusUpdateID(StatusUpdateIdPrefix + "_" + random)
    ensures !IsMissionID(StatusUpdateIdPrefix + "_" + random) && !IsMissionStatusUpdateID(MissionIdPrefix + "_" + random)
    ensures !IsMissionStatusUpdateID(StatusUpdateIdPrefix + "_" + random[1..])
  {
    AsciiId(MissionIdPrefix + "_", random);
    AsciiId(StatusUpdateIdPrefix + "_", random);
    AsciiId(StatusUpdateIdPrefix + "_", random[1..]);
    assert (MissionIdPrefix + "_" + random)[..3] == MissionIdPrefix;
    assert (StatusUpdateIdPrefix + "_" + random)[..3] == StatusUpdateIdPrefix;
  }

  /** A status update id of 20 characters is rejected when one of them, here
      `é`, takes two bytes. */
  lemma WideCharacterRejected(random: string)
    requires IsAscii(random) && |random| == IdLength - 1
    ensures |StatusUpdateIdPrefix + "_\U{E9}" + random| == 20
    ensures !IsMissionStatusUpdateID(StatusUpdateIdPrefix + "_\U{E9}" + random)
  {
    var head := StatusUpdateIdPrefix + "_";
    assert StatusUpdateIdPrefix + "_\U{E9}" + random == head + "\U{E9}" + random;
    Utf8LengthAppend(head + "\U{E9}", random);
    Utf8LengthAppend(head, "\U{E9}");
    Utf8LengthBounds(head);
    Utf8LengthBounds(random);
    assert Utf8Length("\U{E9}") == 2 by {
      assert "\U{E9}"[..0] == "";
    }
  }

  /** The byte length of an ASCII prefix followed by ASCII text. */
  lemma AsciiId(prefix: string, random: string)
    requires IsAscii(prefix) && IsAscii(random)
    ensures Utf8Length(prefix + random) == |prefix| + |random|
  {
    Utf8LengthAppend(prefix, random);
    Utf8LengthBounds(prefix);
    Utf8LengthBounds(random);
  }

  const Created: string := "created"
  const Started: string := "started"
  const Paused: string := "paused"
  const Resumed: string := "resumed"
  const Canceled: string := "canceled"
  const FailedStatus: string := "failed"
  const CompletedStatus: string := "completed"

  datatype MissionStatusUpdate = MissionStatusUpdate(
    id: string,
    missionId: string,
    status: string,
    description: string,
    timestamp: int)

  predicate UpdateIsDone(u: MissionStatusUpdate) {
    u.status == CompletedStatus || u.status == FailedStatus || u.status == Canceled
  }

  predicate UpdateIsRunning(u: MissionStatusUpdate) {
    u.status == Started || u.status == Paused || u.status == Resumed
  }

  /** "created" is neither done nor running, and no status is both. */
  lemma StatusClasses(u: MissionStatusUpdate)
    ensures u.status == Created ==> !UpdateIsDone(u) && !UpdateIsRunning(u)
    ensures !(UpdateIsDone(u) && UpdateIsRunning(u))
  {
  }

  datatype MissionError = StatusUpdateInvalid | StatusUpdateAfterDone

  function ErrorMessage(e: MissionError): string {
    match e
    case StatusUpdateInvalid => "invalid mission status update data"
    case StatusUpdateAfterDone => "mission status update after mission is done"
  }

  /** The log of a mission's status updates, oldest first. */
  type StatusLog = seq<MissionStatusUpdate>

  function GetLatestStatusUpdate(log: StatusLog): (r: Option<MissionStatusUpdate>)
    ensures r.None? <==> log == []
    ensures r.Some? ==> r.value == log[|log| - 1]
  {
    if log == [] then None else Some(log[|log| - 1])
  }

  /** The mission is done when its latest update is done; an empty log is not done. */
  predicate IsDone(log: StatusLog) {
    match GetLatestStatusUpdate(log)
    case None => false
    case Some(u) => UpdateIsDone(u)
  }

  predicate IsRunning(log: StatusLog) {
    match GetLatestStatusUpdate(log)
    case None => false
    case Some(u) => UpdateIsRunning(u)
  }

  /** Only the latest entry counts: what came before it does not matter. */
  lemma LatestEntryDecides(earlier: StatusLog, u: MissionStatusUpdate)
    ensures IsDone(earlier + [u]) <==> UpdateIsDone(u)
    ensures IsRunning(earlier + [u]) <==> UpdateIsRunning(u)
    ensures !IsDone([]) && !IsRunning([])
  {
  }

  function GetStatusUpdates(log: StatusLog): (r: StatusLog)
    ensures r == log
  {
    log
  }

  function GetStatusUpdatesCount(log: StatusLog): (r: nat)
    ensures r == |log|
  {
    |log|
  }

  /** `AddStatus`: a nil update, a malformed id, or any update once the
      mission is done is refused and leaves the log as it was; anything else
      is appended. */
  function AddStatus(log: StatusLog, msu: Option<MissionStatusUpdate>): (r: (StatusLog, Option<MissionError>))
    ensures msu.None? ==> r == (log, Some(StatusUpdateInvalid))
    ensures msu.Some? && !IsMissionStatusUpdateID(msu.value.id) ==> r == (log, Some(StatusUpdateInvalid))
    ensures msu.Some? && IsMissionStatusUpdateID(msu.value.id) && IsDone(log) ==> r == (log, Some(StatusUpdateAfterDone))
    ensures r.1.None? <==> msu.Some? && IsMissionStatusUpdateID(msu.value.id) && !IsDone(log)
    ensures r.1.None? ==> r.0 == log + [msu.value] && |r.0| == |log| + 1
    ensures r.1.Some? ==> r.0 == log
  {
    match msu
    case None => (log, Some(StatusUpdateInvalid))
    case Some(u) =>
      if !IsMissionStatusUpdateID(u.id) then (log, Some(StatusUpdateInvalid))
      else if IsDone(log) then (log, Some(StatusUpdateAfterDone))
      else (log + [u], None)
  }

  /** A sequence of `AddStatus` calls, each seeing the log the previous one left. */
  function AddAll(log: StatusLog, us: seq<Option<MissionStatusUpdate>>): StatusLog
    decreases |us|
  {
    if us == [] then log else AddAll(AddStatus(log, us[0]).0, us[1..])
  }

  /** What the getters see after one `AddStatus`: an accepted update is the
      new last entry and the count grows by one; a refused one changes nothing. */
  lemma StatusGettersAfterAdd(log: StatusLog, msu: Option<MissionStatusUpdate>)
    ensures var (after, err) := AddStatus(log, msu);
      (err.None? ==>
         GetStatusUpdates(after) == GetStatusUpdates(log) + [msu.value] &&
         GetStatusUpdatesCount(after) == GetStatusUpdatesCount(log) + 1 &&
         GetLatestStatusUpdate(after) == msu) &&
      (err.Some? ==> GetStatusUpdates(after) == GetStatusUpdates(log))
    ensures GetStatusUpdatesCount(log) == 0 <==> GetLatestStatusUpdate(log).None?
  {
  }

  /** Over any sequence of `AddStatus` calls, the earlier updates stay in
      place and the count grows by at most one per call. */
  lemma {:induction false} StatusGettersAfterAddAll(log: StatusLog, us: seq<Option<MissionStatusUpdate>>)
    ensures var after := AddAll(log, us);
      GetStatusUpdatesCount(log) <= GetStatusUpdatesCount(after) <= GetStatusUpdatesCount(log) + |us| &&
      GetStatusUpdates(after)[..GetStatusUpdatesCount(log)] == GetStatusUpdates(log)
    decreases |us|
  {
    if us != [] {
      var next := AddStatus(log, us[0]).0;
      StatusGettersAfterAdd(log, us[0]);
      StatusGettersAfterAddAll(next, us[1..]);
      var after := AddAll(log, us);
      assert after == AddAll(next, us[1..]);
      assert after[..|next|][..|log|] == after[..|log|];
      assert next[..|log|] == log;
    }
  }

  /** Once a mission is done its log never changes again. */
  lemma {:induction false} DoneIsFinal(log: StatusLog, us: seq<Option<MissionStatusUpdate>>)
    requires IsDone(log)
    ensures AddAll(log, us) == log
    decreases |us|
  {
    if us != [] {
      DoneIsFinal(log, us[1..]);
    }
  }

  /** The log invariant: every id is well formed and only the last entry can be done. */
  predicate WellFormedLog(log: StatusLog) {
    (forall i :: 0 <= i < |log| ==> IsMissionStatusUpdateID(log[i].id)) &&
    (forall i :: 0 <= i < |log| - 1 ==> !UpdateIsDone(log[i]))
  }

  lemma AddStatusKeepsWellFormed(log: StatusLog, msu: Option<MissionStatusUpdate>)
    requires WellFormedLog(log)
    ensures WellFormedLog(AddStatus(log, msu).0)
  {
  }

  /** Every log built by `AddStatus` from an empty one is well formed, however
      the updates are chosen. */
  lemma {:induction false} AddAllWellFormed(log: StatusLog, us: seq<Option<MissionStatusUpdate>>)
    requires WellFormedLog(log)
    ensures WellFormedLog(AddAll(log, us))
    decreases |us|
  {
    if us != [] {
      AddStatusKeepsWellFormed(log, us[0]);
      AddAllWellFormed(AddStatus(log, us[0]).0, us[1..]);
    }
  }
}
