/** NATS tools, tool jobs and the tool manager's registry.

    The transport is not modelled: a received message is a decoded value (or
    a decoding failure), a published message is returned, and `now` is a
    parameter. Times are nanoseconds; Go's zero `time.Time` is `None`. */
module NatsTools {
  import opened Wrappers
  import opened Seqs
  import opened Adapters
  import opened Results
  import opened FunctionCalls

  type Time = int

  const Second: int := 1_000_000_000
  /** A tool re-announces itself every 60 seconds ... */
  const AnnounceInterval: int := 60 * Second
  /** ... and the manager forgets a tool not heard from for more than 61 seconds. */
  const ToolTtl: int := 61 * Second
  /** Ended jobs are kept for 300 seconds after they ended. */
  const JobRetention: int := 300 * Second

  const AdapterBaseWebUrl: string := "https://aigency.aigent.studio/"
  const ErrNoExecutorForTool: string := "no executor set for tool"

  datatype NatsTool = NatsTool(
    name: string,
    description: string,
    toolType: string,
    parameters: seq<ToolParameter>,
    responseFormat: seq<ToolParameter>,
    version: string,
    lastAnnounce: Option<Time>)

  /** `NatsToolJobUpdates`: one status report about a job. */
  datatype JobUpdate = JobUpdate(
    jobId: string,
    toolName: string,
    toolVersion: string,
    status: string,
    updateMsg: string,
    submittedAt: Option<Time>,
    updatedAt: Option<Time>,
    newResultData: seq<string>,
    newResultFiles: seq<FileInfo>)

  datatype NatsToolJob = NatsToolJob(
    jobId: string,
    status: string,
    statusMessage: string,
    updates: seq<JobUpdate>,
    toolName: string,
    toolVersion: string,
    parameters: map<string, Value>,
    missionId: string,
    missionBaseUrl: string,
    threadId: string,
    runId: string,
    submittedAt: Time,
    latestUpdateAt: Option<Time>,
    resultFiles: seq<FileInfo>,
    resultData: seq<string>,
    endedAt: Option<Time>)

  /** The manager's two maps: tools by name and jobs by job id. */
  datatype ToolManager = ToolManager(tools: map<string, NatsTool>, toolJobs: map<string, NatsToolJob>)

  // ------------------------------------------------------------------- jobs

  predicate IsTerminal(status: string) {
    status == Completed || status == Cancelled || status == Failed
  }

  /** `IsEnded`. */
  predicate IsEnded(job: NatsToolJob) {
    IsTerminal(job.status)
  }

  /** The job `NewNatsToolJob` builds, filled in from the execution data. The
      status is left at Go's zero value, the empty string. */
  function CreateToolJobFromExecutionData(data: ExecutionData, now: Time, joinPath: (string, string) -> string): (job: NatsToolJob)
    ensures job.jobId == data.jobId && job.toolName == data.adapterName
    ensures job.parameters == data.arguments
    ensures job.missionId == data.missionId && job.threadId == data.threadId && job.runId == data.runId
    ensures job.missionBaseUrl == joinPath(AdapterBaseWebUrl, data.missionId)
    ensures job.submittedAt == now
    ensures job.status == "" && !IsEnded(job)
    ensures job.updates == [] && job.resultData == [] && job.resultFiles == []
    ensures job.latestUpdateAt.None? && job.endedAt.None?
  {
    NatsToolJob(data.jobId, "", "", [], data.adapterName, "", data.arguments, data.missionId,
      joinPath(AdapterBaseWebUrl, data.missionId), data.threadId, data.runId, now, None, [], [], None)
  }

  function AddResultFile(job: NatsToolJob, file: FileInfo): (r: NatsToolJob)
    ensures r.resultFiles == job.resultFiles + [file]
    ensures r == job.(resultFiles := r.resultFiles)
  {
    job.(resultFiles := job.resultFiles + [file])
  }

  function AddResultData(job: NatsToolJob, data: string): (r: NatsToolJob)
    ensures r.resultData == job.resultData + [data]
    ensures r == job.(resultData := r.resultData)
  {
    job.(resultData := job.resultData + [data])
  }

  /** `UpdateStatus`: record the update, take over its status and message,
      append its results and stamp the end time for a terminal status. There
      is no check of the job's current status. */
  function UpdateStatus(job: NatsToolJob, status: string, msg: string,
                        newData: seq<string>, newFiles: seq<FileInfo>, now: Time): (r: NatsToolJob)
    ensures r.updates == job.updates +
      [JobUpdate(job.jobId, job.toolName, job.toolVersion, status, msg, Some(job.submittedAt), Some(now), newData, newFiles)]
    ensures r.status == status && r.statusMessage == msg && r.latestUpdateAt == Some(now)
    ensures r.resultData == job.resultData + newData && r.resultFiles == job.resultFiles + newFiles
    ensures r.endedAt == if IsTerminal(status) then Some(now) else job.endedAt
    ensures r.jobId == job.jobId && r.toolName == job.toolName && r.toolVersion == job.toolVersion
    ensures r.parameters == job.parameters && r.submittedAt == job.submittedAt
    ensures r.missionId == job.missionId && r.missionBaseUrl == job.missionBaseUrl
    ensures r.threadId == job.threadId && r.runId == job.runId
  {
    var up := JobUpdate(job.jobId, job.toolName, job.toolVersion, status, msg, Some(job.submittedAt), Some(now), newData, newFiles);
    var j1 := job.(updates := job.updates + [up], status := status, latestUpdateAt := up.updatedAt, statusMessage := msg);
    var j2 := if |newData| > 0 then j1.(resultData := j1.resultData + newData) else j1;
    var j3 := if |newFiles| > 0 then j2.(resultFiles := j2.resultFiles + newFiles) else j2;
    if IsTerminal(status) then j3.(endedAt := Some(now)) else j3
  }

  /** A job has ended exactly when its latest update carried a terminal status,
      and an ended job has an end time. */
  lemma EndedAfterUpdate(job: NatsToolJob, status: string, msg: string,
                         newData: seq<string>, newFiles: seq<FileInfo>, now: Time)
    ensures var r := UpdateStatus(job, status, msg, newData, newFiles, now);
      (IsEnded(r) <==> status in {Completed, Cancelled, Failed}) &&
      (IsEnded(r) ==> r.endedAt == Some(now))
  {
  }

  /** Nothing stops an update after the job ended: a "Running" update on a
      completed job makes it running again, and its end time stays. */
  lemma NoGuardAfterTerminal(job: NatsToolJob, msg: string, now: Time)
    requires IsEnded(job)
    ensures var r := UpdateStatus(job, Running, msg, [], [], now);
      !IsEnded(r) && r.status == Running && r.endedAt == job.endedAt
  {
  }

  /** The updates a job receives, applied in order. */
  function ApplyUpdates(job: NatsToolJob, us: seq<JobUpdate>, now: Time): NatsToolJob
    decreases |us|
  {
    if us == [] then job
    else
      var u := us[|us| - 1];
      UpdateStatus(ApplyUpdates(job, us[..|us| - 1], now), u.status, u.updateMsg, u.newResultData, u.newResultFiles, now)
  }

  function ConcatData(us: seq<JobUpdate>): seq<string>
    decreases |us|
  {
    if us == [] then [] else ConcatData(us[..|us| - 1]) + us[|us| - 1].newResultData
  }

  /** The job's history only grows: every update adds one record, and the
      results are the old results followed by every update's new ones. The
      status is the last update's, whatever came before it. */
  lemma {:induction false} UpdatesOnlyAppend(job: NatsToolJob, us: seq<JobUpdate>, now: Time)
    ensures var r := ApplyUpdates(job, us, now);
      |r.updates| == |job.updates| + |us| && r.updates[..|job.updates|] == job.updates &&
      r.resultData == job.resultData + ConcatData(us) &&
      (us != [] ==> r.status == us[|us| - 1].status) &&
      (us == [] ==> r == job)
    decreases |us|
  {
    if us != [] {
      var init, u := us[..|us| - 1], us[|us| - 1];
      UpdatesOnlyAppend(job, init, now);
      var prev := ApplyUpdates(job, init, now);
      var r := UpdateStatus(prev, u.status, u.updateMsg, u.newResultData, u.newResultFiles, now);
      assert ApplyUpdates(job, us, now) == r;
      assert |r.updates| == |prev.updates| + 1;
      assert r.updates[..|prev.updates|] == prev.updates;
      assert r.updates[..|job.updates|] == prev.updates[..|job.updates|];
      assert ConcatData(us) == ConcatData(init) + u.newResultData;
      assert r.resultData == (job.resultData + ConcatData(init)) + u.newResultData;
    }
  }

  function GetResults(job: NatsToolJob): (r: JobResults)
    ensures r.jobId == job.jobId && r.adapterName == job.toolName
    ensures r.resultTexts == job.resultData && r.resultFiles == job.resultFiles
    ensures r.finalState == job.status && r.err.None?
  {
    JobResults(job.jobId, job.toolName, job.resultData, job.resultFiles, job.status, None)
  }

  /** After an update the results report that update's status and the accumulated results. */
  lemma ResultsAfterUpdate(job: NatsToolJob, status: string, msg: string,
                           newData: seq<string>, newFiles: seq<FileInfo>, now: Time)
    ensures var r := GetResults(UpdateStatus(job, status, msg, newData, newFiles, now));
      r.finalState == status && r.resultTexts == job.resultData + newData &&
      r.resultFiles == job.resultFiles + newFiles
  {
  }

  // ----------------------------------------------------------------- tools

  function PropertyOf(p: ToolParameter): FunctionParameter {
    FunctionParameter(p.varType, p.description, None, p.enum)
  }

  function Names(ps: seq<ToolParameter>): (r: seq<string>)
    ensures |r| == |ps| && forall i :: 0 <= i < |ps| ==> r[i] == ps[i].name
  {
    seq(|ps|, i requires 0 <= i < |ps| => ps[i].name)
  }

  function IsRequired(p: ToolParameter): bool {
    p.required
  }

  /** The property map built by the loop, one parameter after the other. */
  function PropertiesOf(ps: seq<ToolParameter>): (m: map<string, FunctionParameter>)
    ensures m.Keys == set i | 0 <= i < |ps| :: ps[i].name
    decreases |ps|
  {
    if ps == [] then map[]
    else
      var init := ps[..|ps| - 1];
      var last := ps[|ps| - 1];
      var m := PropertiesOf(init)[last.name := PropertyOf(last)];
      assert forall i :: 0 <= i < |init| ==> init[i] == ps[i];
      assert (set i | 0 <= i < |ps| :: ps[i].name) == (set i | 0 <= i < |init| :: init[i].name) + {last.name};
      m
  }

  /** The property of a name comes from the last parameter declared with it. */
  lemma {:induction false} LastDeclarationWins(ps: seq<ToolParameter>, i: nat)
    requires i < |ps|
    requires forall j :: i < j < |ps| ==> ps[j].name != ps[i].name
    ensures PropertiesOf(ps)[ps[i].name] == PropertyOf(ps[i])
    decreases |ps|
  {
    if i < |ps| - 1 {
      var init := ps[..|ps| - 1];
      assert init[i] == ps[i];
      LastDeclarationWins(init, i);
    }
  }

  /** `GetOpenAIFunctionParameters`: an "object" with one property per
      parameter name and the names of the required parameters in declaration
      order (an empty, not nil, list when there are none). */
  function GetOpenAIFunctionParameters(tool: NatsTool): (r: FunctionParameters)
    ensures r.paramsType == "object"
    ensures r.properties.Keys == set i | 0 <= i < |tool.parameters| :: tool.parameters[i].name
    ensures r.required == Slice(Names(Filter(tool.parameters, IsRequired)))
  {
    FunctionParameters("object", PropertiesOf(tool.parameters), Slice(Names(Filter(tool.parameters, IsRequired))))
  }

  /** The required names, as the loop appends them: a required parameter adds
      its name at the end. */
  lemma RequiredNamesAppend(ps: seq<ToolParameter>, p: ToolParameter)
    ensures Names(Filter(ps + [p], IsRequired)) ==
      Names(Filter(ps, IsRequired)) + (if p.required then [p.name] else [])
  {
    FilterAppend(ps, [p], IsRequired);
    assert Filter([p], IsRequired) == if p.required then [p] else [];
    var a := Filter(ps, IsRequired);
    var b := Filter([p], IsRequired);
    assert Names(a + b) == Names(a) + Names(b);
  }

  /** A parameter is listed as required exactly when some parameter with that
      name is declared required. */
  lemma RequiredMeansDeclaredRequired(tool: NatsTool, name: string)
    ensures name in GetOpenAIFunctionParameters(tool).required.Elements() <==>
      exists i :: 0 <= i < |tool.parameters| && tool.parameters[i].required && tool.parameters[i].name == name
  {
    var f := Filter(tool.parameters, IsRequired);
    var names := Names(f);
    if name in names {
      var k :| 0 <= k < |names| && names[k] == name;
      FilterMembership(tool.parameters, IsRequired, f[k]);
      var i :| 0 <= i < |tool.parameters| && tool.parameters[i] == f[k];
      assert tool.parameters[i].required && tool.parameters[i].name == name;
    }
    if exists i :: 0 <= i < |tool.parameters| && tool.parameters[i].required && tool.parameters[i].name == name {
      var i :| 0 <= i < |tool.parameters| && tool.parameters[i].required && tool.parameters[i].name == name;
      FilterMembership(tool.parameters, IsRequired, tool.parameters[i]);
      var k :| 0 <= k < |f| && f[k] == tool.parameters[i];
      assert names[k] == name;
    }
  }

  /** The update an executed job publishes when it ends. */
  function EndMessage(data: ExecutionData, tool: NatsTool, results: JobResults): (msg: string)
  {
    "Job(" + data.jobId + ") for tool(" + tool.name + ") ended with status(" + results.finalState + ")"
    + (if results.err.Some? then " and error: " + results.err.value else "")
  }

  /** `Execute`: without an executor the results carry only the error and
      nothing is published; otherwise the executor's results are returned and
      an update reporting them is published. */
  function Execute(tool: NatsTool, data: ExecutionData,
                   executor: Option<(NatsTool, ExecutionData) -> JobResults>, now: Time): (r: (JobResults, Option<JobUpdate>))
    ensures executor.None? ==> r.0 == JobResults("", "", [], [], "", Some(ErrNoExecutorForTool)) && r.1.None?
    ensures executor.Some? ==> r.0 == executor.value(tool, data) && r.1.Some?
    ensures r.1.Some? ==>
      var u := r.1.value;
      u.jobId == data.jobId && u.toolName == tool.name && u.toolVersion == tool.version &&
      u.status == r.0.finalState && u.updateMsg == EndMessage(data, tool, r.0) &&
      u.newResultData == r.0.resultTexts && u.newResultFiles == r.0.resultFiles
  {
    if executor.None? then (JobResults("", "", [], [], "", Some(ErrNoExecutorForTool)), None)
    else
      var results := executor.value(tool, data);
      var u := JobUpdate(data.jobId, tool.name, tool.version, results.finalState, EndMessage(data, tool, results),
        Some(now), Some(now), results.resultTexts, results.resultFiles);
      (results, Some(u))
  }

  /** A message on the tool's job topic, after JSON decoding: either a job, or
      a decoding error together with the job id decoded before it failed. */
  datatype JobMessage = Malformed(partialJobId: string, error: string) | WellFormed(job: NatsToolJob)

  /** What the job handler publishes and what the job's results were. */
  datatype Handled = Handled(published: Option<JobUpdate>, results: Option<JobResults>)

  /** `NewJobHandler`: a malformed job is answered with a "Failed" update, a
      job for another tool is dropped, and any other job is executed with a
      copy of its parameters. */
  function NewJobHandler(tool: NatsTool, m: JobMessage,
                         executor: Option<(NatsTool, ExecutionData) -> JobResults>, now: Time): (r: Handled)
    ensures m.Malformed? ==>
      r.results.None? &&
      r.published == Some(JobUpdate(m.partialJobId, tool.name, tool.version, Failed,
        "error unmarshaling tool job: " + m.error, Some(now), Some(now), [], []))
    ensures m.WellFormed? && m.job.toolName != tool.name ==> r == Handled(None, None)
    ensures m.WellFormed? && m.job.toolName == tool.name ==>
      var data := ExecutionData(tool.name, m.job.jobId, m.job.missionId, m.job.threadId, m.job.runId, m.job.parameters);
      r.results == Some(Execute(tool, data, executor, now).0) &&
      r.published == Execute(tool, data, executor, now).1
  {
    match m
    case Malformed(id, e) =>
      Handled(Some(JobUpdate(id, tool.name, tool.version, Failed, "error unmarshaling tool job: " + e,
        Some(now), Some(now), [], [])), None)
    case WellFormed(job) =>
      if job.toolName != tool.name then Handled(None, None)
      else
        var args := map k | k in job.parameters :: job.parameters[k];
        assert args == job.parameters;
        var data := ExecutionData(tool.name, job.jobId, job.missionId, job.threadId, job.runId, args);
        var (results, published) := Execute(tool, data, executor, now);
        Handled(published, Some(results))
  }

  // --------------------------------------------------------------- manager

  predicate ToolExpired(tool: NatsTool, now: Time) {
    tool.lastAnnounce.None? || now - tool.lastAnnounce.value > ToolTtl
  }

  predicate JobExpired(job: NatsToolJob, now: Time) {
    IsEnded(job) && (job.endedAt.None? || now - job.endedAt.value > JobRetention)
  }

  /** Every tool is stored under its name and every job under its id. */
  predicate WellKeyed(tm: ToolManager) {
    (forall n :: n in tm.tools ==> tm.tools[n].name == n) &&
    (forall id :: id in tm.toolJobs ==> tm.toolJobs[id].jobId == id)
  }

  /** `PruneExpiredTools`: delete, one key at a time, each tool whose last
      announcement is more than 61 seconds old. */
  method PruneExpiredTools(tm: ToolManager, now: Time) returns (r: ToolManager)
    ensures r.toolJobs == tm.toolJobs
    ensures forall n :: n in r.tools <==> n in tm.tools && !ToolExpired(tm.tools[n], now)
    ensures forall n :: n in r.tools ==> r.tools[n] == tm.tools[n]
  {
    var tools := tm.tools;
    var pending := tm.tools.Keys;
    while pending != {}
      invariant pending <= tm.tools.Keys
      invariant forall n :: n in tools <==>
        n in tm.tools && (n in pending || !ToolExpired(tm.tools[n], now))
      invariant forall n :: n in tools ==> tools[n] == tm.tools[n]
      decreases |pending|
    {
      var name :| name in pending;
      if ToolExpired(tools[name], now) {
        tools := tools - {name};
      }
      pending := pending - {name};
    }
    r := tm.(tools := tools);
  }

  /** `PruneExpiredJobs`: delete each ended job that ended more than 300 seconds ago. */
  method PruneExpiredJobs(tm: ToolManager, now: Time) returns (r: ToolManager)
    ensures r.tools == tm.tools
    ensures forall id :: id in r.toolJobs <==> id in tm.toolJobs && !JobExpired(tm.toolJobs[id], now)
    ensures forall id :: id in r.toolJobs ==> r.toolJobs[id] == tm.toolJobs[id]
  {
    var jobs := tm.toolJobs;
    var pending := tm.toolJobs.Keys;
    while pending != {}
      invariant pending <= tm.toolJobs.Keys
      invariant forall id :: id in jobs <==>
        id in tm.toolJobs && (id in pending || !JobExpired(tm.toolJobs[id], now))
      invariant forall id :: id in jobs ==> jobs[id] == tm.toolJobs[id]
      decreases |pending|
    {
      var id :| id in pending;
      if JobExpired(jobs[id], now) {
        jobs := jobs - {id};
      }
      pending := pending - {id};
    }
    r := tm.(toolJobs := jobs);
  }

  /** A job that has not ended survives every prune, whatever the time. */
  lemma RunningJobsSurvivePrune(job: NatsToolJob, now: Time)
    requires !IsEnded(job)
    ensures !JobExpired(job, now)
  {
  }

  /** A tool heard from within the announce interval survives the prune. */
  lemma AnnouncedToolSurvivesPrune(tool: NatsTool, now: Time)
    requires tool.lastAnnounce.Some? && now - tool.lastAnnounce.value <= AnnounceInterval
    ensures !ToolExpired(tool, now)
  {
  }

  /** An announcement: a malformed one is ignored, a well-formed one replaces
      the entry under its name, stamped with the time it arrived. */
  function OnAnnouncement(tm: ToolManager, decoded: Option<NatsTool>, now: Time): (r: ToolManager)
    ensures decoded.None? ==> r == tm
    ensures decoded.Some? ==>
      r.toolJobs == tm.toolJobs &&
      r.tools == tm.tools[decoded.value.name := decoded.value.(lastAnnounce := Some(now))]
    ensures WellKeyed(tm) ==> WellKeyed(r)
  {
    match decoded
    case None => tm
    case Some(tool) => tm.(tools := tm.tools[tool.name := tool.(lastAnnounce := Some(now))])
  }

  /** A job update: dropped when malformed or for an unknown job id, otherwise
      applied to exactly that job. */
  function OnJobUpdate(tm: ToolManager, decoded: Option<JobUpdate>, now: Time): (r: ToolManager)
    ensures decoded.None? || decoded.value.jobId !in tm.toolJobs ==> r == tm
    ensures decoded.Some? && decoded.value.jobId in tm.toolJobs ==>
      var u := decoded.value;
      r.tools == tm.tools &&
      r.toolJobs == tm.toolJobs[u.jobId := UpdateStatus(tm.toolJobs[u.jobId], u.status, u.updateMsg, u.newResultData, u.newResultFiles, now)]
    ensures WellKeyed(tm) ==> WellKeyed(r)
    ensures r.toolJobs.Keys == tm.toolJobs.Keys
  {
    match decoded
    case None => tm
    case Some(u) =>
      if u.jobId !in tm.toolJobs then tm
      else
        var job := tm.toolJobs[u.jobId];
        tm.(toolJobs := tm.toolJobs[u.jobId := UpdateStatus(job, u.status, u.updateMsg, u.newResultData, u.newResultFiles, now)])
  }

  /** `AddToolJob`: store the job under its id, replacing any job already there. */
  function AddToolJob(tm: ToolManager, job: NatsToolJob): (r: ToolManager)
    ensures r.tools == tm.tools
    ensures r.toolJobs.Keys == tm.toolJobs.Keys + {job.jobId}
    ensures r.toolJobs[job.jobId] == job
    ensures forall id :: id in tm.toolJobs && id != job.jobId ==> r.toolJobs[id] == tm.toolJobs[id]
    ensures WellKeyed(tm) ==> WellKeyed(r)
  {
    tm.(toolJobs := tm.toolJobs[job.jobId := job])
  }

  /** Adding a job under an id in use silently drops the earlier job and its updates. */
  lemma AddToolJobOverwrites(tm: ToolManager, job: NatsToolJob)
    requires job.jobId in tm.toolJobs && tm.toolJobs[job.jobId].updates != [] && job.updates == []
    ensures AddToolJob(tm, job).toolJobs[job.jobId].updates == []
    ensures |AddToolJob(tm, job).toolJobs| == |tm.toolJobs|
  {
    assert AddToolJob(tm, job).toolJobs.Keys == tm.toolJobs.Keys;
  }

  datatype ManagerError = JobNotFound

  /** `GetToolJobStatus`: the job's status, or "Unknown" with an error. */
  function GetToolJobStatus(tm: ToolManager, jobId: string): (r: (string, Option<ManagerError>))
    ensures jobId !in tm.toolJobs <==> r.1 == Some(JobNotFound)
    ensures jobId !in tm.toolJobs ==> r.0 == Unknown
    ensures jobId in tm.toolJobs ==> r == (tm.toolJobs[jobId].status, None)
  {
    if jobId in tm.toolJobs then (tm.toolJobs[jobId].status, None) else (Unknown, Some(JobNotFound))
  }

  function GetTool(tm: ToolManager, name: string): (r: Option<NatsTool>)
    ensures r.Some? <==> name in tm.tools
    ensures r.Some? ==> r.value == tm.tools[name]
  {
    if name in tm.tools then Some(tm.tools[name]) else None
  }

  function HasTool(tm: ToolManager, name: string): (r: bool)
    ensures r <==> GetTool(tm, name).Some?
  {
    name in tm.tools
  }

  function GetToolJob(tm: ToolManager, jobId: string): (r: Option<NatsToolJob>)
    ensures r.Some? <==> jobId in tm.toolJobs
    ensures r.Some? ==> r.value == tm.toolJobs[jobId]
  {
    if jobId in tm.toolJobs then Some(tm.toolJobs[jobId]) else None
  }

  /** `GetToolNames`: every tool name once, in map iteration order. */
  method GetToolNames(tm: ToolManager) returns (names: seq<string>)
    ensures |names| == |tm.tools|
    ensures forall n :: n in names <==> n in tm.tools
  {
    names := [];
    var pending := tm.tools.Keys;
    while pending != {}
      invariant pending <= tm.tools.Keys
      invariant forall n :: n in names <==> n in tm.tools && n !in pending
      invariant |names| + |pending| == |tm.tools.Keys|
      decreases |pending|
    {
      var name :| name in pending;
      names := names + [name];
      pending := pending - {name};
    }
  }

  /** `ListAvailableTools`: every stored tool once, in map iteration order. */
  method ListAvailableTools(tm: ToolManager) returns (tools: seq<NatsTool>)
    ensures |tools| == |tm.tools|
    ensures forall i :: 0 <= i < |tools| ==> exists n :: n in tm.tools && tools[i] == tm.tools[n]
    ensures forall n :: n in tm.tools ==> tm.tools[n] in tools
  {
    tools := [];
    var pending := tm.tools.Keys;
    while pending != {}
      invariant pending <= tm.tools.Keys
      invariant forall i :: 0 <= i < |tools| ==> exists n :: n in tm.tools && tools[i] == tm.tools[n]
      invariant forall n :: n in tm.tools && n !in pending ==> tm.tools[n] in tools
      invariant |tools| + |pending| == |tm.tools.Keys|
      decreases |pending|
    {
      var name :| name in pending;
      tools := tools + [tm.tools[name]];
      pending := pending - {name};
    }
  }

  /** `ExecuteJob`: build the job from the execution data and add it. */
  function ExecuteJob(tm: ToolManager, data: ExecutionData, now: Time, joinPath: (string, string) -> string): (r: (ToolManager, NatsToolJob))
    ensures r.1 == CreateToolJobFromExecutionData(data, now, joinPath)
    ensures r.0 == AddToolJob(tm, r.1)
  {
    var job := CreateToolJobFromExecutionData(data, now, joinPath);
    (AddToolJob(tm, job), job)
  }

  /** A submitted job reports the empty status until its first update, and is
      not pruned in the meantime. */
  lemma SubmittedJobStatus(tm: ToolManager, data: ExecutionData, now: Time, later: Time, joinPath: (string, string) -> string)
    ensures var (tm1, job) := ExecuteJob(tm, data, now, joinPath);
      GetToolJobStatus(tm1, data.jobId) == ("", None) && !JobExpired(tm1.toolJobs[data.jobId], later)
  {
  }

  /** A job's first terminal update makes it prunable once the retention time has passed. */
  lemma EndedJobIsPrunedLater(tm: ToolManager, u: JobUpdate, now: Time, later: Time)
    requires u.jobId in tm.toolJobs && IsTerminal(u.status)
    requires later - now > JobRetention
    ensures JobExpired(OnJobUpdate(tm, Some(u), now).toolJobs[u.jobId], later)
  {
  }
}
