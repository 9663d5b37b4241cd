/**
 * Fetching the tail logs of an environment: the bounded retry that waits
 * for log information to appear and keeps only entries sampled at or after
 * the request time, the map from instance to log address, and the
 * selection of named log files from a downloaded log.
 */
module Logs {
  import opened Results
  import opened Strings
  import opened Cloud
  import Utils

  /** One entry of `retrieveEnvironmentInfo`; the instance id is absent when it is not a string. */
  datatype LogEntry = LogEntry(ec2InstanceId: Option<string>, message: string, sampleTimestamp: int)

  datatype LogError = ProviderFailed(error: ProviderError) | NoLogs | DownloadFailed

  /** The largest retry counter at which an empty answer is retried once more. */
  const MaxRetryCount := 5

  /** `getLogs` asks for entries sampled within the last hour. */
  const OneHour := 60 * 60 * 1000

  // ===== retrieveEnvironmentInfo =====

  /** The entries sampled at or after `requestTime`, in their order. */
  function Fresh(entries: seq<LogEntry>, requestTime: int): (r: seq<LogEntry>)
    ensures |r| <= |entries|
    ensures forall i :: 0 <= i < |r| ==> r[i].sampleTimestamp >= requestTime && r[i] in entries
    ensures forall i :: 0 <= i < |entries| && entries[i].sampleTimestamp >= requestTime ==> entries[i] in r
    decreases |entries|
  {
    if entries == [] then []
    else
      var rest := Fresh(entries[1..], requestTime);
      assert forall i :: 1 <= i < |entries| ==> entries[i] == entries[1..][i - 1];
      if entries[0].sampleTimestamp >= requestTime then [entries[0]] + rest else rest
  }

  /** The retry measure: how many more empty answers are retried from `count`. */
  function RetriesLeft(count: nat): nat
  {
    if count <= MaxRetryCount then MaxRetryCount + 1 - count else 0
  }

  /**
   * `retrieveEnvironmentInfo(api, count, requestTime)`: `read(k)` is the
   * answer of the read made with counter `k`. A failed read rejects; the
   * first non-empty answer resolves to its fresh entries (possibly none);
   * an empty answer is retried with the next counter until the counter
   * exceeds 5, when the call rejects with "No logs".
   */
  function Retrieve(read: nat -> Result<seq<LogEntry>, ProviderError>, count: nat, requestTime: int): (r: Result<seq<LogEntry>, LogError>)
    ensures r.Ok? ==> forall i :: 0 <= i < |r.value| ==> r.value[i].sampleTimestamp >= requestTime
    decreases RetriesLeft(count)
  {
    match read(count)
    case Err(e) => Err(ProviderFailed(e))
    case Ok(info) =>
      if |info| > 0 then Ok(Fresh(info, requestTime))
      else if count > MaxRetryCount then Err(NoLogs)
      else Retrieve(read, count + 1, requestTime)
  }

  /** How many reads `Retrieve` makes. */
  function Reads(read: nat -> Result<seq<LogEntry>, ProviderError>, count: nat): nat
    decreases RetriesLeft(count)
  {
    match read(count)
    case Err(_) => 1
    case Ok(info) => if |info| > 0 || count > MaxRetryCount then 1 else 1 + Reads(read, count + 1)
  }

  /** From counter `count` at most `7 - count` reads are made (one once the counter is past 5): seven from 0. */
  lemma {:induction false} ReadsBounded(read: nat -> Result<seq<LogEntry>, ProviderError>, count: nat)
    ensures 1 <= Reads(read, count) <= RetriesLeft(count) + 1
    decreases RetriesLeft(count)
  {
    match read(count)
    case Err(_) =>
    case Ok(info) =>
      if |info| == 0 && count <= MaxRetryCount {
        ReadsBounded(read, count + 1);
      }
  }

  /** Only empty answers are retried, and when none of the seven reads from 0 answers the call rejects with "No logs". */
  lemma {:induction false} NoLogsAfterSevenEmptyReads(read: nat -> Result<seq<LogEntry>, ProviderError>, count: nat)
    requires count <= MaxRetryCount + 1
    requires forall k :: count <= k <= MaxRetryCount + 1 ==> read(k) == Ok([])
    ensures Retrieve(read, count, 0) == Err(NoLogs) && Reads(read, count) == MaxRetryCount + 2 - count
    decreases MaxRetryCount + 1 - count
  {
    if count <= MaxRetryCount {
      NoLogsAfterSevenEmptyReads(read, count + 1);
    }
  }

  /** Keeping the fresh entries works piece by piece, so their order is kept. */
  lemma {:induction false} FreshConcat(a: seq<LogEntry>, b: seq<LogEntry>, requestTime: int)
    ensures Fresh(a + b, requestTime) == Fresh(a, requestTime) + Fresh(b, requestTime)
    decreases |a|
  {
    if a == [] {
      assert a + b == b;
    } else {
      assert (a + b)[0] == a[0] && (a + b)[1..] == a[1..] + b;
      FreshConcat(a[1..], b, requestTime);
    }
  }

  /** One entry is kept exactly when it was sampled at or after the request time. */
  lemma FreshOne(e: LogEntry, requestTime: int)
    ensures Fresh([e], requestTime) == if e.sampleTimestamp >= requestTime then [e] else []
  {
    assert [e][1..] == [];
  }

  /**
   * After empty answers from counter `count` up to `k`, the answer of the
   * read with counter `k` decides: a non-empty one resolves to all its fresh
   * entries, a failed one rejects with its error.
   */
  lemma {:induction false} RetrieveFirstAnswer(read: nat -> Result<seq<LogEntry>, ProviderError>, count: nat, k: nat, requestTime: int)
    requires count <= k <= MaxRetryCount + 1
    requires forall j :: count <= j < k ==> read(j) == Ok([])
    ensures read(k).Ok? && |read(k).value| > 0 ==> Retrieve(read, count, requestTime) == Ok(Fresh(read(k).value, requestTime))
    ensures read(k).Err? ==> Retrieve(read, count, requestTime) == Err(ProviderFailed(read(k).error))
    decreases k - count
  {
    if count < k {
      assert read(count) == Ok([]);
      RetrieveFirstAnswer(read, count + 1, k, requestTime);
    }
  }

  /** The recursion of the source as a loop over the counter; `attempts` counts the reads. */
  method RetrieveEnvironmentInfo(read: nat -> Result<seq<LogEntry>, ProviderError>, count: nat, requestTime: int)
    returns (r: Result<seq<LogEntry>, LogError>, attempts: nat)
    ensures r == Retrieve(read, count, requestTime)
    ensures attempts == Reads(read, count)
    ensures r.Ok? ==> forall i :: 0 <= i < |r.value| ==> r.value[i].sampleTimestamp >= requestTime
  {
    var k: nat := count;
    attempts := 0;
    while true
      invariant Retrieve(read, k, requestTime) == Retrieve(read, count, requestTime)
      invariant attempts + Reads(read, k) == Reads(read, count)
      decreases RetriesLeft(k)
    {
      attempts := attempts + 1;
      var answer := read(k);
      if answer.Err? {
        return Err(ProviderFailed(answer.error)), attempts;
      }
      var info := answer.value;
      if |info| > 0 {
        return Ok(Fresh(info, requestTime)), attempts;
      } else if k > MaxRetryCount {
        return Err(NoLogs), attempts;
      }
      k := k + 1;
    }
  }

  // ===== logsForServer =====

  /** The `reduce` over the entries: the last message of every instance whose id is a string. */
  function ServerLogs(entries: seq<LogEntry>): (m: map<string, string>)
    ensures forall id :: id in m <==> exists i :: 0 <= i < |entries| && entries[i].ec2InstanceId == Some(id)
    decreases |entries|
  {
    if entries == [] then map[]
    else
      var prefix := entries[..|entries| - 1];
      var last := entries[|entries| - 1];
      var m := ServerLogs(prefix);
      assert forall i :: 0 <= i < |prefix| ==> prefix[i] == entries[i];
      if last.ec2InstanceId.Some? then m[last.ec2InstanceId.value := last.message] else m
  }

  /** An instance maps to the message of its last entry. */
  lemma {:induction false} ServerLogsLast(entries: seq<LogEntry>, i: nat)
    requires i < |entries| && entries[i].ec2InstanceId.Some?
    requires forall j :: i < j < |entries| ==> entries[j].ec2InstanceId != entries[i].ec2InstanceId
    ensures ServerLogs(entries)[entries[i].ec2InstanceId.value] == entries[i].message
    decreases |entries|
  {
    if i < |entries| - 1 {
      var prefix := entries[..|entries| - 1];
      ServerLogsLast(prefix, i);
    }
  }

  /** The `reduce`: the object of messages, and its keys in the order they were added. */
  method CollectServerLogs(entries: seq<LogEntry>) returns (result: map<string, string>, keys: seq<string>)
    ensures result == ServerLogs(entries)
    ensures keys == InstanceIds(entries)
  {
    result := map[];
    keys := [];
    var i := 0;
    while i < |entries|
      invariant 0 <= i <= |entries|
      invariant result == ServerLogs(entries[..i])
      invariant keys == InstanceIds(entries[..i])
    {
      assert entries[..i + 1][..i] == entries[..i];
      if entries[i].ec2InstanceId.Some? {
        InstanceIdsAreKeys(entries[..i]);
        if entries[i].ec2InstanceId.value !in result {
          keys := keys + [entries[i].ec2InstanceId.value];
        }
        result := result[entries[i].ec2InstanceId.value := entries[i].message];
      }
      i := i + 1;
    }
    assert entries[..|entries|] == entries;
  }

  /**
   * The keys of the object the `reduce` builds, in `Object.keys` order: an
   * instance id is added when it first appears, and a later entry for it
   * only overwrites its message.
   */
  function InstanceIds(entries: seq<LogEntry>): (ids: seq<string>)
    ensures forall id :: id in ids <==> exists i :: 0 <= i < |entries| && entries[i].ec2InstanceId == Some(id)
    ensures forall i, j :: 0 <= i < j < |ids| ==> ids[i] != ids[j]
    decreases |entries|
  {
    if entries == [] then []
    else
      var prefix := entries[..|entries| - 1];
      var last := entries[|entries| - 1];
      var ids := InstanceIds(prefix);
      assert forall i :: 0 <= i < |prefix| ==> prefix[i] == entries[i];
      if last.ec2InstanceId.Some? && last.ec2InstanceId.value !in ids then ids + [last.ec2InstanceId.value] else ids
  }

  /** The keys are exactly the instances of the object. */
  lemma InstanceIdsAreKeys(entries: seq<LogEntry>)
    ensures forall id :: id in InstanceIds(entries) <==> id in ServerLogs(entries)
  {
  }

  /** Instances come in the order their first entries come: an earlier key's instance shows up before any entry of a later key's. */
  lemma {:induction false} InstanceIdsInFirstAppearanceOrder(entries: seq<LogEntry>, a: nat, b: nat, k: nat)
    requires a < b < |InstanceIds(entries)|
    requires k < |entries| && entries[k].ec2InstanceId == Some(InstanceIds(entries)[b])
    ensures exists k' :: 0 <= k' < k && entries[k'].ec2InstanceId == Some(InstanceIds(entries)[a])
    decreases |entries|
  {
    var prefix := entries[..|entries| - 1];
    var ids := InstanceIds(prefix);
    var all := InstanceIds(entries);
    assert forall i :: 0 <= i < |prefix| ==> prefix[i] == entries[i];
    assert all[..|ids|] == ids;
    assert all[a] == ids[a];
    if b < |ids| {
      assert all[b] == ids[b];
      var k0 :| 0 <= k0 < |prefix| && prefix[k0].ec2InstanceId == Some(ids[b]);
      var k1 := if k < |prefix| then k else k0;
      InstanceIdsInFirstAppearanceOrder(prefix, a, b, k1);
      var k' :| 0 <= k' < k1 && prefix[k'].ec2InstanceId == Some(ids[a]);
      assert entries[k'].ec2InstanceId == Some(all[a]);
    } else {
      assert all[b] !in ids;
      assert k == |prefix|;
      var k' :| 0 <= k' < |prefix| && prefix[k'].ec2InstanceId == Some(ids[a]);
      assert entries[k'].ec2InstanceId == Some(all[a]);
    }
  }

  // ===== the parts of a downloaded log =====

  /** The separator between log files on Amazon Linux 2. */
  const Separator := "----------------------------------------\n/var/log/"

  /** The separator of the older platforms. */
  const LegacySeparator := "-------------------------------------\n/var/log/"

  /** The separator a log is split on: the Amazon Linux 2 one, unless it does not occur. */
  function SeparatorOf(data: string): string
  {
    if |Split(data, Separator)| == 1 then LegacySeparator else Separator
  }

  function LogFiles(data: string): (parts: seq<string>)
    ensures |parts| >= 1
    ensures Join(parts, SeparatorOf(data)) == data
  {
    JoinSplit(data, Separator);
    JoinSplit(data, LegacySeparator);
    Split(data, SeparatorOf(data))
  }

  /** `parts.find(part => part.trim().startsWith(name))`. */
  function FindPart(parts: seq<string>, name: string): (r: Option<string>)
    ensures r.None? <==> forall i :: 0 <= i < |parts| ==> !StartsWith(Trim(parts[i]), name)
    ensures r.Some? ==> r.value in parts && StartsWith(Trim(r.value), name)
    decreases |parts|
  {
    if parts == [] then None
    else if StartsWith(Trim(parts[0]), name) then Some(parts[0])
    else
      assert forall i :: 1 <= i < |parts| ==> parts[i] == parts[1..][i - 1];
      FindPart(parts[1..], name)
  }

  /** For every wanted log name, the first log file that starts with it, or the empty string. */
  function LogParts(data: string, logNames: seq<string>): (r: seq<string>)
    ensures |r| == |logNames|
    ensures forall i :: 0 <= i < |logNames| ==>
      (r[i] == "" && FindPart(LogFiles(data), logNames[i]).None?) ||
      (r[i] in LogFiles(data) && StartsWith(Trim(r[i]), logNames[i]))
  {
    var parts := LogFiles(data);
    seq(|logNames|, i requires 0 <= i < |logNames| =>
      match FindPart(parts, logNames[i]) case Some(p) => p case None => "")
  }

  /** The part at `i` is the first whose trimmed text starts with `name`. */
  predicate FirstMatch(parts: seq<string>, name: string, i: nat)
  {
    i < |parts| && StartsWith(Trim(parts[i]), name)
    && forall j :: 0 <= j < i ==> !StartsWith(Trim(parts[j]), name)
  }

  /** `find` returns the first part that matches, not just any. */
  lemma {:induction false} FindPartFirst(parts: seq<string>, name: string, i: nat)
    requires FirstMatch(parts, name, i)
    ensures FindPart(parts, name) == Some(parts[i])
    decreases i
  {
    if i > 0 {
      assert !StartsWith(Trim(parts[0]), name);
      assert FirstMatch(parts[1..], name, i - 1) by {
        forall j | 0 <= j < i - 1
          ensures !StartsWith(Trim(parts[1..][j]), name)
        {
          assert parts[1..][j] == parts[j + 1];
        }
      }
      FindPartFirst(parts[1..], name, i - 1);
    }
  }

  /** The entry for a wanted name is the first log file whose trimmed text starts with it. */
  lemma LogPartsFirst(data: string, logNames: seq<string>, n: nat, i: nat)
    requires n < |logNames| && FirstMatch(LogFiles(data), logNames[n], i)
    ensures LogParts(data, logNames)[n] == LogFiles(data)[i]
  {
    FindPartFirst(LogFiles(data), logNames[n], i);
  }

  // ===== getLogs =====

  /** What `getLogs` resolves to for one instance: its picked log files and its id. */
  datatype InstanceLog = InstanceLog(data: seq<string>, instance: string)

  /**
   * The `Promise.all` over the object's keys: the logs of every instance,
   * in key order, or the failure of a download that fails.
   */
  function InstanceLogs(servers: map<string, string>, keys: seq<string>, download: string -> Option<string>, logNames: seq<string>):
    (r: Result<seq<InstanceLog>, LogError>)
    requires forall k :: k in keys ==> k in servers
    ensures r.Ok? ==> |r.value| == |keys|
    ensures r.Ok? ==> forall i :: 0 <= i < |keys| ==>
      && r.value[i].instance == keys[i] && download(servers[keys[i]]).Some?
      && r.value[i].data == LogParts(download(servers[keys[i]]).value, logNames)
    ensures r.Err? <==> exists i :: 0 <= i < |keys| && download(servers[keys[i]]).None?
  {
    if exists i :: 0 <= i < |keys| && download(servers[keys[i]]).None? then Err(DownloadFailed)
    else
      Ok(seq(|keys|, i requires 0 <= i < |keys| => InstanceLog(LogParts(download(servers[keys[i]]).value, logNames), keys[i])))
  }

  /** What `getLogs` resolves to after its two calls, reading `read` and downloading with `download`. */
  function GetLogsResult(
    requested: Outcome<ProviderError>, read: nat -> Result<seq<LogEntry>, ProviderError>, now: int,
    download: string -> Option<string>, logNames: seq<string>): (r: Result<seq<InstanceLog>, LogError>)
    ensures r.Ok? ==> requested.Pass? && Retrieve(read, 0, now - OneHour).Ok?
  {
    if requested.Fail? then Err(ProviderFailed(requested.error))
    else
      match Retrieve(read, 0, now - OneHour)
      case Err(e) => Err(e)
      case Ok(entries) =>
        InstanceIdsAreKeys(entries);
        InstanceLogs(ServerLogs(entries), InstanceIds(entries), download, logNames)
  }

  /**
   * A successful `getLogs` reports each instance of the fresh entries once,
   * in the order of its first entry, with the files of its last entry's log.
   */
  lemma GetLogsPerInstance(entries: seq<LogEntry>, download: string -> Option<string>, logNames: seq<string>)
    requires forall k :: k in InstanceIds(entries) ==> k in ServerLogs(entries)
    requires InstanceLogs(ServerLogs(entries), InstanceIds(entries), download, logNames).Ok?
    ensures var r := InstanceLogs(ServerLogs(entries), InstanceIds(entries), download, logNames).value;
      && (forall id :: id in ServerLogs(entries) ==> exists i :: 0 <= i < |r| && r[i].instance == id)
      && (forall i, j :: 0 <= i < j < |r| ==> r[i].instance != r[j].instance)
      && (forall i :: 0 <= i < |r| ==> r[i].instance == InstanceIds(entries)[i])
  {
    var servers := ServerLogs(entries);
    var keys := InstanceIds(entries);
    var r := InstanceLogs(servers, keys, download, logNames).value;
    InstanceIdsAreKeys(entries);
    forall id | id in servers
      ensures exists i :: 0 <= i < |r| && r[i].instance == id
    {
      var i :| 0 <= i < |keys| && keys[i] == id;
      assert r[i].instance == id;
    }
  }

  /**
   * `getLogs`: wait for the environment, request its tail logs, retrieve
   * the entries of the last hour, and for every instance download its log
   * and pick out the named files.
   */
  method GetLogs(
    acct: Account, appName: string, envName: Option<string>,
    read: nat -> Result<seq<LogEntry>, ProviderError>, now: int,
    download: string -> Option<string>, logNames: seq<string>)
    returns (r: Result<seq<InstanceLog>, LogError>)
    modifies acct
    ensures acct.cloud == old(acct.cloud)
    ensures var environment := Utils.NamesOf(appName, envName).environment;
      ReadinessId(environment) in old(acct.cloud).writeFaults ==>
        acct.calls == old(acct.calls) + [WaitForEnvReady(environment, false)] &&
        r == Err(ProviderFailed(ServiceFailure))
    ensures var environment := Utils.NamesOf(appName, envName).environment;
      var requested := Apply(old(acct.cloud), RequestEnvironmentInfo(environment, "tail")).1;
      ReadinessId(environment) !in old(acct.cloud).writeFaults ==>
        acct.calls == old(acct.calls) + [WaitForEnvReady(environment, false), RequestEnvironmentInfo(environment, "tail")] &&
        r == GetLogsResult(requested, read, now, download, logNames)
  {
    var environment := Utils.NamesOf(appName, envName).environment;
    LogRequestLeavesStore(acct.cloud, environment);
    var waited := acct.Invoke(WaitForEnvReady(environment, false));
    if waited.Fail? {
      return Err(ProviderFailed(waited.error));
    }
    var requested := acct.Invoke(RequestEnvironmentInfo(environment, "tail"));
    if requested.Fail? {
      return Err(ProviderFailed(requested.error));
    }
    var info, _ := RetrieveEnvironmentInfo(read, 0, now - OneHour);
    if info.Err? {
      return Err(info.error);
    }
    var logsForServer, keys := CollectServerLogs(info.value);
    InstanceIdsAreKeys(info.value);
    r := DownloadLogs(logsForServer, keys, download, logNames);
  }

  /** Asking for logs and waiting change nothing in the store; the wait rejects only when faulted. */
  lemma LogRequestLeavesStore(c: Cloud, environment: string)
    ensures Apply(c, WaitForEnvReady(environment, false)) ==
      (c, if ReadinessId(environment) in c.writeFaults then Fail(ServiceFailure) else Pass)
    ensures Apply(c, RequestEnvironmentInfo(environment, "tail")).0 == c
  {
  }

  /** Every instance's log is downloaded, in key order, and its named files picked out. */
  method DownloadLogs(logsForServer: map<string, string>, keys: seq<string>, download: string -> Option<string>, logNames: seq<string>)
    returns (r: Result<seq<InstanceLog>, LogError>)
    requires forall k :: k in keys ==> k in logsForServer
    ensures r == InstanceLogs(logsForServer, keys, download, logNames)
  {
    var logs: seq<InstanceLog> := [];
    var i := 0;
    while i < |keys|
      invariant 0 <= i <= |keys| && |logs| == i
      invariant forall j :: 0 <= j < i ==>
        && download(logsForServer[keys[j]]).Some?
        && logs[j] == InstanceLog(LogParts(download(logsForServer[keys[j]]).value, logNames), keys[j])
    {
      var data := download(logsForServer[keys[i]]);
      if data.None? {
        assert download(logsForServer[keys[i]]).None?;
        return Err(DownloadFailed);
      }
      logs := logs + [InstanceLog(LogParts(data.value, logNames), keys[i])];
      i := i + 1;
    }
    assert logs == seq(|keys|, j requires 0 <= j < |keys| => InstanceLog(LogParts(download(logsForServer[keys[j]]).value, logNames), keys[j]));
    r := Ok(logs);
  }
}
