// The job registry: Job records, their dict form, and the in-memory store
// with its log ring.  Clocks and the random id are parameters; the JSON file
// is the dict value the store last wrote or reads at start.
module Jobs {
  import opened TextUtil
  import opened JsonValue

  const LogLimit: nat := 500
  const IdLength: nat := 8

  /** One log_lines entry: {"timestamp", "level", "source", "message"}. */
  datatype LogEntry = LogEntry(timestamp: string, level: string, source: string, message: string)

  /** The Job dataclass; floats are reals and times are seconds. */
  datatype Job = Job(
    jobId: string,
    status: string,
    currentPhase: int,
    progressPercentage: real,
    message: string,
    isRecoverable: bool,
    resumePhase: Option<int>,
    etaPhaseSeconds: Option<int>,
    etaTotalSeconds: Option<int>,
    pdfPath: Option<string>,
    logLines: seq<LogEntry>,
    createdAt: real,
    updatedAt: real,
    config: Obj)

  /** Job(job_id=..., config=...) with every other field at its default. */
  function NewJob(jobId: string, config: Obj, now: real): Job
  {
    Job(jobId, "pending", 0, 0.0, "", false, None, None, None, None, [], now, now, config)
  }

  const JobFields: seq<string> := ["job_id", "status", "current_phase", "progress_percentage", "message",
    "is_recoverable", "resume_phase", "eta_phase_seconds", "eta_total_seconds", "pdf_path", "log_lines",
    "created_at", "updated_at", "config"]

  function OptIntValue(o: Option<int>): Value { if o.Some? then Int(o.value) else Null }
  function OptStrValue(o: Option<string>): Value { if o.Some? then Str(o.value) else Null }

  function EntryValue(e: LogEntry): Value
  {
    Object([("timestamp", Str(e.timestamp)), ("level", Str(e.level)), ("source", Str(e.source)),
            ("message", Str(e.message))])
  }

  function EntriesValue(es: seq<LogEntry>): (v: Value)
    ensures v.List? && |v.items| == |es|
  {
    if es == [] then List([]) else List([EntryValue(es[0])] + EntriesValue(es[1..]).items)
  }

  /** The field values of a job in declaration order, as asdict renders them. */
  function JobValues(j: Job): (vs: seq<Value>)
    ensures |vs| == |JobFields|
  {
    [Str(j.jobId), Str(j.status), Int(j.currentPhase), Float(j.progressPercentage), Str(j.message),
     Bool(j.isRecoverable), OptIntValue(j.resumePhase), OptIntValue(j.etaPhaseSeconds),
     OptIntValue(j.etaTotalSeconds), OptStrValue(j.pdfPath), EntriesValue(j.logLines), Float(j.createdAt),
     Float(j.updatedAt), Object(j.config)]
  }

  /** asdict(job): every field name with its value, in declaration order. */
  function ToDict(j: Job): (d: Obj)
    ensures |d| == |JobFields|
    ensures forall i :: 0 <= i < |d| ==> d[i] == (JobFields[i], JobValues(j)[i])
  {
    Pairs(JobFields, JobValues(j))
  }

  /** The i-th key with the i-th value. */
  function Pairs(keys: seq<string>, vals: seq<Value>): (d: Obj)
    requires |keys| == |vals|
    ensures |d| == |keys|
    ensures forall i :: 0 <= i < |d| ==> d[i] == (keys[i], vals[i])
  {
    if keys == [] then [] else [(keys[0], vals[0])] + Pairs(keys[1..], vals[1..])
  }

  /** The file _save writes: every job's dict under its id. */
  function Snapshot(jobs: map<string, Job>): map<string, Obj>
  {
    map id | id in jobs :: ToDict(jobs[id])
  }

  /** The field names differ pairwise: no two agree on their length, their
      first character and their fifth. */
  lemma JobFieldsDistinct()
    ensures forall a, b :: 0 <= a < b < |JobFields| ==> JobFields[a] != JobFields[b]
  {
    forall a, b | 0 <= a < b < |JobFields|
      ensures JobFields[a] != JobFields[b]
    {
      assert (|JobFields[a]|, JobFields[a][0], JobFields[a][4]) != (|JobFields[b]|, JobFields[b][0], JobFields[b][4]);
    }
  }


  // Field decoders: an absent key gives the default, a value of the wrong
  // type gives None.

  function StrField(d: Obj, key: string, default: string): Option<string>
  {
    match Get(d, key)
    case None => Some(default)
    case Some(Str(s)) => Some(s)
    case Some(_) => None
  }

  function IntField(d: Obj, key: string, default: int): Option<int>
  {
    match Get(d, key)
    case None => Some(default)
    case Some(Int(i)) => Some(i)
    case Some(_) => None
  }

  function RealField(d: Obj, key: string, default: real): Option<real>
  {
    match Get(d, key)
    case None => Some(default)
    case Some(Float(r)) => Some(r)
    case Some(Int(i)) => Some(i as real)
    case Some(_) => None
  }

  function BoolField(d: Obj, key: string, default: bool): Option<bool>
  {
    match Get(d, key)
    case None => Some(default)
    case Some(Bool(b)) => Some(b)
    case Some(_) => None
  }

  function OptIntField(d: Obj, key: string): Option<Option<int>>
  {
    match Get(d, key)
    case None => Some(None)
    case Some(Null) => Some(None)
    case Some(Int(i)) => Some(Some(i))
    case Some(_) => None
  }

  function OptStrField(d: Obj, key: string): Option<Option<string>>
  {
    match Get(d, key)
    case None => Some(None)
    case Some(Null) => Some(None)
    case Some(Str(s)) => Some(Some(s))
    case Some(_) => None
  }

  function ObjField(d: Obj, key: string): Option<Obj>
  {
    match Get(d, key)
    case None => Some([])
    case Some(Object(f)) => Some(f)
    case Some(_) => None
  }

  function EntryFrom(v: Value): Option<LogEntry>
  {
    if !v.Object? then None
    else
      match (Get(v.fields, "timestamp"), Get(v.fields, "level"), Get(v.fields, "source"), Get(v.fields, "message"))
      case (Some(Str(t)), Some(Str(l)), Some(Str(s)), Some(Str(m))) => Some(LogEntry(t, l, s, m))
      case _ => None
  }

  function EntriesFrom(vs: seq<Value>): (r: Option<seq<LogEntry>>)
    ensures r.Some? ==> |r.value| == |vs|
  {
    if vs == [] then Some([])
    else match (EntryFrom(vs[0]), EntriesFrom(vs[1..]))
      case (Some(e), Some(es)) => Some([e] + es)
      case _ => None
  }

  function LogField(d: Obj, key: string): Option<seq<LogEntry>>
  {
    match Get(d, key)
    case None => Some([])
    case Some(List(vs)) => EntriesFrom(vs)
    case Some(_) => None
  }

  /** Job.from_dict(d) = Job(**d): None where Python raises TypeError (not a
      mapping, an unknown keyword, no job_id).  The dataclass does not check
      the types of the values; the Job datatype here is typed, so a value of
      the wrong type for its field has no counterpart and gives None as well.
      Absent timestamps default to `now`. */
  function FromDict(v: Value, now: real): (r: Option<Job>)
    ensures r.Some? ==> v.Object? && Get(v.fields, "job_id") == Some(Str(r.value.jobId))
    ensures r.Some? ==> forall i :: 0 <= i < |v.fields| ==> v.fields[i].0 in JobFields
  {
    if !v.Object? then None
    else if exists i :: 0 <= i < |v.fields| && v.fields[i].0 !in JobFields then None
    else
      var d := v.fields;
      match Get(d, "job_id")
      case Some(Str(jobId)) =>
        var status := StrField(d, "status", "pending");
        var phase := IntField(d, "current_phase", 0);
        var progress := RealField(d, "progress_percentage", 0.0);
        var message := StrField(d, "message", "");
        var recoverable := BoolField(d, "is_recoverable", false);
        var resume := OptIntField(d, "resume_phase");
        var etaPhase := OptIntField(d, "eta_phase_seconds");
        var etaTotal := OptIntField(d, "eta_total_seconds");
        var pdf := OptStrField(d, "pdf_path");
        var logs := LogField(d, "log_lines");
        var created := RealField(d, "created_at", now);
        var updated := RealField(d, "updated_at", now);
        var config := ObjField(d, "config");
        if status.None? || phase.None? || progress.None? || message.None? || recoverable.None? ||
           resume.None? || etaPhase.None? || etaTotal.None? || pdf.None? || logs.None? ||
           created.None? || updated.None? || config.None?
        then None
        else Some(Job(jobId, status.value, phase.value, progress.value, message.value, recoverable.value,
                      resume.value, etaPhase.value, etaTotal.value, pdf.value, logs.value, created.value,
                      updated.value, config.value))
      case _ => None
  }

  lemma {:induction false} EntriesRoundTrip(es: seq<LogEntry>)
    ensures EntriesFrom(EntriesValue(es).items) == Some(es)
  {
    if es != [] {
      EntriesRoundTrip(es[1..]);
      var items := EntriesValue(es).items;
      assert items[0] == EntryValue(es[0]) && items[1..] == EntriesValue(es[1..]).items;
      EntryRoundTrip(es[0]);
      assert EntriesFrom(items) == Some([es[0]] + es[1..]);
      assert [es[0]] + es[1..] == es;
    }
  }

  /** Job.from_dict(job.to_dict()) reproduces the job. */
  lemma DictRoundTrip(j: Job, now: real)
    ensures FromDict(Object(ToDict(j)), now) == Some(j)
  {
    var d := ToDict(j);
    FirstFieldsDecode(j);
    StateFieldsDecode(j);
    EtaFieldsDecode(j);
    LastFieldsDecode(j, now);
    assert forall i :: 0 <= i < |d| ==> d[i].0 in JobFields;
  }

  lemma FirstFieldsDecode(j: Job)
    ensures Get(ToDict(j), "job_id") == Some(Str(j.jobId))
    ensures StrField(ToDict(j), "status", "pending") == Some(j.status)
    ensures IntField(ToDict(j), "current_phase", 0) == Some(j.currentPhase)
    ensures RealField(ToDict(j), "progress_percentage", 0.0) == Some(j.progressPercentage)
  {
    var d := ToDict(j);
    assert Get(d, "job_id") == Some(Str(j.jobId)) by { FieldAt(j, 0); }
    assert StrField(d, "status", "pending") == Some(j.status) by { FieldAt(j, 1); }
    assert IntField(d, "current_phase", 0) == Some(j.currentPhase) by { FieldAt(j, 2); }
    assert RealField(d, "progress_percentage", 0.0) == Some(j.progressPercentage) by { FieldAt(j, 3); }
  }

  lemma StateFieldsDecode(j: Job)
    ensures StrField(ToDict(j), "message", "") == Some(j.message)
    ensures BoolField(ToDict(j), "is_recoverable", false) == Some(j.isRecoverable)
    ensures OptIntField(ToDict(j), "resume_phase") == Some(j.resumePhase)
  {
    var d := ToDict(j);
    assert StrField(d, "message", "") == Some(j.message) by { FieldAt(j, 4); }
    assert BoolField(d, "is_recoverable", false) == Some(j.isRecoverable) by { FieldAt(j, 5); }
    assert OptIntField(d, "resume_phase") == Some(j.resumePhase) by { FieldAt(j, 6); }
  }

  lemma EtaFieldsDecode(j: Job)
    ensures OptIntField(ToDict(j), "eta_phase_seconds") == Some(j.etaPhaseSeconds)
    ensures OptIntField(ToDict(j), "eta_total_seconds") == Some(j.etaTotalSeconds)
    ensures OptStrField(ToDict(j), "pdf_path") == Some(j.pdfPath)
  {
    var d := ToDict(j);
    assert OptIntField(d, "eta_phase_seconds") == Some(j.etaPhaseSeconds) by { FieldAt(j, 7); }
    assert OptIntField(d, "eta_total_seconds") == Some(j.etaTotalSeconds) by { FieldAt(j, 8); }
    assert OptStrField(d, "pdf_path") == Some(j.pdfPath) by { FieldAt(j, 9); }
  }

  lemma LastFieldsDecode(j: Job, now: real)
    ensures LogField(ToDict(j), "log_lines") == Some(j.logLines)
    ensures RealField(ToDict(j), "created_at", now) == Some(j.createdAt)
    ensures RealField(ToDict(j), "updated_at", now) == Some(j.updatedAt)
    ensures ObjField(ToDict(j), "config") == Some(j.config)
  {
    var d := ToDict(j);
    EntriesRoundTrip(j.logLines);
    assert LogField(d, "log_lines") == Some(j.logLines) by { FieldAt(j, 10); }
    assert RealField(d, "created_at", now) == Some(j.createdAt) by { FieldAt(j, 11); }
    assert RealField(d, "updated_at", now) == Some(j.updatedAt) by { FieldAt(j, 12); }
    assert ObjField(d, "config") == Some(j.config) by { FieldAt(j, 13); }
  }

  /** Each field name finds its own value in the dict. */
  lemma FieldAt(j: Job, i: nat)
    requires i < |JobFields|
    ensures Get(ToDict(j), JobFields[i]) == Some(JobValues(j)[i])
  {
    JobFieldsDistinct();
    GetIndex(ToDict(j), i);
  }

  lemma EntryRoundTrip(e: LogEntry)
    ensures EntryFrom(EntryValue(e)) == Some(e)
  {
    var d := EntryValue(e).fields;
    GetIndex(d, 0);
    GetIndex(d, 1);
    GetIndex(d, 2);
    GetIndex(d, 3);
  }

  /** A decoded job keeps the stored status; an absent one reads "pending". */
  lemma FromDictStatus(v: Value, now: real)
    requires FromDict(v, now).Some?
    ensures Get(v.fields, "status") == Some(Str(FromDict(v, now).value.status)) ||
            (Get(v.fields, "status").None? && FromDict(v, now).value.status == "pending")
  {
  }

  /** One keyword of update(**kwargs). */
  datatype Change =
    | SetJobId(jobId: string)
    | SetStatus(status: string)
    | SetCurrentPhase(phase: int)
    | SetProgress(progress: real)
    | SetMessage(message: string)
    | SetRecoverable(recoverable: bool)
    | SetResumePhase(resume: Option<int>)
    | SetEtaPhase(etaPhase: Option<int>)
    | SetEtaTotal(etaTotal: Option<int>)
    | SetPdfPath(pdf: Option<string>)
    | SetLogLines(lines: seq<LogEntry>)
    | SetCreatedAt(created: real)
    | SetUpdatedAt(updated: real)
    | SetConfig(config: Obj)
    | Unknown(name: string)      // hasattr(job, name) is false: ignored

  /** setattr(job, k, v) when hasattr(job, k). */
  function Apply(j: Job, c: Change): Job
  {
    match c
    case SetJobId(x) => j.(jobId := x)
    case SetStatus(x) => j.(status := x)
    case SetCurrentPhase(x) => j.(currentPhase := x)
    case SetProgress(x) => j.(progressPercentage := x)
    case SetMessage(x) => j.(message := x)
    case SetRecoverable(x) => j.(isRecoverable := x)
    case SetResumePhase(x) => j.(resumePhase := x)
    case SetEtaPhase(x) => j.(etaPhaseSeconds := x)
    case SetEtaTotal(x) => j.(etaTotalSeconds := x)
    case SetPdfPath(x) => j.(pdfPath := x)
    case SetLogLines(x) => j.(logLines := x)
    case SetCreatedAt(x) => j.(createdAt := x)
    case SetUpdatedAt(x) => j.(updatedAt := x)
    case SetConfig(x) => j.(config := x)
    case Unknown(_) => j
  }

  /** The keywords applied left to right. */
  function ApplyAll(j: Job, cs: seq<Change>): Job
    decreases |cs|
  {
    if cs == [] then j else ApplyAll(Apply(j, cs[0]), cs[1..])
  }

  function Known(cs: seq<Change>): (r: seq<Change>)
    ensures forall i :: 0 <= i < |r| ==> !r[i].Unknown?
  {
    if cs == [] then [] else (if cs[0].Unknown? then [] else [cs[0]]) + Known(cs[1..])
  }

  /** Keywords naming no Job field are ignored. */
  lemma {:induction false} UnknownIgnored(j: Job, cs: seq<Change>)
    ensures ApplyAll(j, cs) == ApplyAll(j, Known(cs))
    decreases |cs|
  {
    if cs != [] {
      UnknownIgnored(Apply(j, cs[0]), cs[1..]);
      if !cs[0].Unknown? {
        var k := Known(cs);
        assert k == [cs[0]] + Known(cs[1..]);
        assert k[0] == cs[0] && k[1..] == Known(cs[1..]);
        assert ApplyAll(j, k) == ApplyAll(Apply(j, cs[0]), Known(cs[1..]));
      } else {
        assert Apply(j, cs[0]) == j;
        assert Known(cs) == [] + Known(cs[1..]);
        assert Known(cs) == Known(cs[1..]);
      }
    }
  }

  /** Without a status keyword the status is kept; the last one wins otherwise. */
  function LastStatus(cs: seq<Change>, current: string): string
  {
    if cs == [] then current
    else LastStatus(cs[1..], if cs[0].SetStatus? then cs[0].status else current)
  }

  lemma {:induction false} UpdateStatus(j: Job, cs: seq<Change>)
    ensures ApplyAll(j, cs).status == LastStatus(cs, j.status)
    decreases |cs|
  {
    if cs != [] {
      UpdateStatus(Apply(j, cs[0]), cs[1..]);
    }
  }

  /** append_log's ring: keep the newest LogLimit entries. */
  function KeepLast(lines: seq<LogEntry>): (r: seq<LogEntry>)
    ensures |r| <= LogLimit && |r| <= |lines|
    ensures r == lines[|lines| - |r|..]
    ensures |lines| <= LogLimit ==> r == lines
  {
    if |lines| > LogLimit then lines[|lines| - LogLimit..] else lines
  }

  /** _load's loop: entries decoded in order until the first one that raises;
      the ones before it stay. */
  function LoadEntries(jobs: map<string, Job>, entries: Obj, now: real): map<string, Job>
    decreases |entries|
  {
    if entries == [] then jobs
    else match FromDict(entries[0].1, now)
      case None => jobs
      case Some(j) => LoadEntries(jobs[entries[0].0 := j], entries[1..], now)
  }

  /** Every loaded job was decoded from its entry, so its status is the stored one. */
  lemma {:induction false} LoadedFromEntries(jobs: map<string, Job>, entries: Obj, now: real, id: string)
    requires id in LoadEntries(jobs, entries, now)
    ensures (id in jobs && LoadEntries(jobs, entries, now)[id] == jobs[id]) ||
            exists k :: 0 <= k < |entries| && entries[k].0 == id &&
              FromDict(entries[k].1, now) == Some(LoadEntries(jobs, entries, now)[id])
    decreases |entries|
  {
    if entries != [] {
      var f := FromDict(entries[0].1, now);
      if f.Some? {
        var jobs' := jobs[entries[0].0 := f.value];
        LoadedFromEntries(jobs', entries[1..], now, id);
        var r := LoadEntries(jobs, entries, now);
        if id in jobs' && r[id] == jobs'[id] {
          if id == entries[0].0 {
            assert entries[0].0 == id && FromDict(entries[0].1, now) == Some(r[id]);
          }
        } else {
          var k :| 0 <= k < |entries[1..]| && entries[1..][k].0 == id &&
                   FromDict(entries[1..][k].1, now) == Some(r[id]);
          assert entries[k + 1] == entries[1..][k];
        }
      }
    }
  }

  /** jobs.json as the store finds it at start. */
  datatype JobsFile = Missing | Unparsable | Parsed(data: Value)

  class JobStore {
    var jobs: map<string, Job>
    /** The keys in insertion order: the order of all_jobs(). */
    var order: seq<string>
    /** What _save last wrote, if it ran. */
    var saved: Option<map<string, Obj>>

    predicate Valid()
      reads this
    {
      (forall id :: id in jobs ==> id in order) &&
      (forall i :: 0 <= i < |order| ==> order[i] in jobs) &&
      (forall i, k :: 0 <= i < k < |order| ==> order[i] != order[k])
    }

    constructor(file: JobsFile, now: real)
      ensures Valid() && saved == None
      ensures file.Parsed? && file.data.Object? ==> jobs == LoadEntries(map[], file.data.fields, now)
      ensures !(file.Parsed? && file.data.Object?) ==> jobs == map[]
    {
      jobs := map[];
      order := [];
      saved := None;
      new;
      Load(file, now);
    }

    /** self._jobs[key] = job: an existing key keeps its place. */
    method Put(key: string, job: Job)
      requires Valid()
      modifies this
      ensures jobs == old(jobs)[key := job] && saved == old(saved) && Valid()
      ensures order == if key in old(jobs) then old(order) else old(order) + [key]
    {
      if key !in jobs {
        order := order + [key];
      }
      jobs := jobs[key := job];
    }

    /** _load.  A missing or unparsable file, or one that is not an object,
        loads nothing; otherwise entries load until one fails to decode. */
    method Load(file: JobsFile, now: real)
      requires Valid()
      modifies this
      ensures Valid() && saved == old(saved)
      ensures file.Parsed? && file.data.Object? ==> jobs == LoadEntries(old(jobs), file.data.fields, now)
      ensures !(file.Parsed? && file.data.Object?) ==> jobs == old(jobs)
    {
      if file.Parsed? && file.data.Object? {
        var entries := file.data.fields;
        var i := 0;
        while i < |entries|
          invariant 0 <= i <= |entries| && Valid() && saved == old(saved)
          invariant LoadEntries(jobs, entries[i..], now) == LoadEntries(old(jobs), entries, now)
        {
          var job := FromDict(entries[i].1, now);
          if job.None? {
            return;
          }
          assert entries[i..][1..] == entries[i + 1..];
          Put(entries[i].0, job.value);
          i := i + 1;
        }
      }
    }

    /** _save: every job's dict under its id. */
    method Save()
      modifies this
      ensures jobs == old(jobs) && order == old(order)
      ensures saved == Some(Snapshot(jobs))
    {
      saved := Some(Snapshot(jobs));
    }

    /** create: the id is the first eight characters of a fresh uuid4 string;
        a colliding id overwrites the old job. */
    method Create(config: Option<Obj>, uuid: string, now: real) returns (job: Job)
      requires |uuid| >= IdLength
      requires Valid()
      modifies this
      ensures |job.jobId| == IdLength && job.jobId == uuid[..IdLength]
      ensures job == NewJob(job.jobId, if config.Some? then config.value else [], now)
      ensures jobs == old(jobs)[job.jobId := job] && Valid()
      ensures saved == Some(Snapshot(jobs))
    {
      var id := uuid[..IdLength];
      job := NewJob(id, if config.Some? && config.value != [] then config.value else [], now);
      Put(id, job);
      Save();
    }

    function Get(id: string): (r: Option<Job>)
      reads this
      ensures r.Some? <==> id in jobs
      ensures r.Some? ==> r.value == jobs[id]
    {
      if id in jobs then Some(jobs[id]) else None
    }

    /** update: setattr for every keyword naming a field, then the update
        time; nothing is written to disk. */
    method Update(id: string, changes: seq<Change>, now: real) returns (r: Option<Job>)
      requires Valid()
      modifies this
      ensures id !in old(jobs) ==> r == None && jobs == old(jobs)
      ensures id in old(jobs) ==>
        r == Some(ApplyAll(old(jobs)[id], changes).(updatedAt := now)) && jobs == old(jobs)[id := r.value]
      ensures order == old(order) && saved == old(saved) && Valid()
    {
      if id !in jobs {
        return None;
      }
      var job := jobs[id];
      var i := 0;
      while i < |changes|
        invariant 0 <= i <= |changes|
        invariant ApplyAll(job, changes[i..]) == ApplyAll(jobs[id], changes)
      {
        assert changes[i..][1..] == changes[i + 1..];
        job := Apply(job, changes[i]);
        i := i + 1;
      }
      job := job.(updatedAt := now);
      jobs := jobs[id := job];
      r := Some(job);
    }

    /** append_log: a no-op for an unknown id; otherwise the entry goes last
        and only the newest LogLimit entries are kept. */
    method AppendLog(id: string, message: string, level: string, source: string, timestamp: string)
      requires Valid()
      modifies this
      ensures id !in old(jobs) ==> jobs == old(jobs)
      ensures id in old(jobs) ==>
        jobs == old(jobs)[id := old(jobs)[id].(logLines :=
          KeepLast(old(jobs)[id].logLines + [LogEntry(timestamp, level, source, message)]))]
      ensures order == old(order) && saved == old(saved) && Valid()
    {
      if id in jobs {
        var job := jobs[id];
        var lines := job.logLines + [LogEntry(timestamp, level, source, message)];
        if |lines| > LogLimit {
          lines := lines[|lines| - LogLimit..];
        }
        jobs := jobs[id := job.(logLines := lines)];
      }
    }

    /** all_jobs: every job's dict in insertion order. */
    function AllJobs(): (r: seq<Obj>)
      reads this
      requires Valid()
      ensures |r| == |order| == |jobs|
      ensures forall i :: 0 <= i < |r| ==> r[i] == ToDict(jobs[order[i]])
    {
      OrderCoversKeys(jobs, order);
      DictsOf(jobs, order)
    }
  }

  /** The dicts of the listed jobs, in the order listed. */
  function DictsOf(jobs: map<string, Job>, keys: seq<string>): (r: seq<Obj>)
    requires forall i :: 0 <= i < |keys| ==> keys[i] in jobs
    ensures |r| == |keys|
    ensures forall i :: 0 <= i < |r| ==> r[i] == ToDict(jobs[keys[i]])
  {
    if keys == [] then [] else [ToDict(jobs[keys[0]])] + DictsOf(jobs, keys[1..])
  }

  /** A duplicate-free listing of a map's keys is as long as the map. */
  lemma {:induction false} OrderCoversKeys(jobs: map<string, Job>, order: seq<string>)
    requires forall id :: id in jobs ==> id in order
    requires forall i :: 0 <= i < |order| ==> order[i] in jobs
    requires forall i, k :: 0 <= i < k < |order| ==> order[i] != order[k]
    ensures |jobs| == |order|
    decreases |order|
  {
    if order == [] {
      assert jobs.Keys == {};
    } else {
      var last := order[|order| - 1];
      var rest := jobs - {last};
      forall id | id in rest ensures id in order[..|order| - 1]
      {
        var i :| 0 <= i < |order| && order[i] == id;
        assert i != |order| - 1;
        assert order[..|order| - 1][i] == id;
      }
      OrderCoversKeys(rest, order[..|order| - 1]);
    }
  }

  /** After append_log the ring holds at most LogLimit entries, ends with the
      new entry, and the rest are the newest of the old ones in order. */
  lemma AppendKeepsNewest(lines: seq<LogEntry>, e: LogEntry)
    ensures |KeepLast(lines + [e])| <= LogLimit
    ensures KeepLast(lines + [e])[|KeepLast(lines + [e])| - 1] == e
    ensures KeepLast(lines + [e])[..|KeepLast(lines + [e])| - 1] ==
            lines[|lines| - (|KeepLast(lines + [e])| - 1)..]
  {
    var all := lines + [e];
    var r := KeepLast(all);
    assert |r| > 0;
    assert r[..|r| - 1] == all[|all| - |r|..|all| - 1];
  }
}
