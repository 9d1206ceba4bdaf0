// The apply and rollback commands as a state machine over atomic actions on shared state.
module Protocol {
  import opened Wrappers
  import opened Records
  import opened Sorting
  import opened Journals

  // ----------------------------------------------------------------------- shared state

  /** A file's content: a whole journal, or the torn rest of an interrupted write. */
  datatype FileText = Whole(journal: Journal) | Torn

  datatype RunKey = RunKey(profile: string, runId: string)

  /** Host objects, the runner's journal slots and temporary files, the target's journals, the lock. */
  datatype World = World(host: Host, last: map<string, FileText>, tmp: map<string, FileText>,
                         remote: map<RunKey, Journal>, locked: bool)

  /** What the environment does with one action: its report, whether it took effect, and the values it supplies. */
  datatype Outcome = Outcome(ok: bool, took: bool, torn: bool, blind: set<Key>,
                             keys: seq<ObjectId>, values: Host, mode: Mode,
                             policies: seq<PolicyRecord>, reload: Option<Reload>)

  type Script = seq<Outcome>

  /** A reported success took effect; a reported failure may have. */
  predicate Landed(o: Outcome) { o.ok || o.took }

  // --------------------------------------------------------------------------- programs

  /** One profile step: the objects its capture reads, which are the ones its apply may change. */
  datatype StepPlan = StepPlan(id: string, typ: string, keys: seq<ObjectId>)

  datatype Request =
    | ApplyRequest(profile: string, runId: string, steps: seq<StepPlan>, keepLocal: bool)
    | RollbackRequest(profile: string, localJournal: bool, force: bool)

  datatype Job = Job(todo: seq<StepPlan>, journal: Journal, keepLocal: bool, changes: map<string, bool>)

  /** Who is reverting, and what follows. */
  datatype Revert =
    | ForCommand(local: bool, journal: Journal)
    | ForFailure(job: Job)
    | ForCancel(job: Job)

  /** What a local save is part of. */
  datatype Saving =
    | ClaimSave(journal: Journal)
    | FirstSave(job: Job)
    | BeforeSave(job: Job)
    | AfterSave(job: Job)
    | InterruptedSave(job: Job)
    | FailedSave(reverted: bool)
    | FallbackSave
    | KeepSave

  datatype Ending =
    | NotLocked | Refused | RolledBack | Degraded(failed: seq<ObjectRecord>) | Stuck | NotConsumed
    | Applied | NotApplied | ApplyFailed(reverted: bool) | NotPublished(fallback: bool)

  datatype Pc =
    | Acquire(request: Request) | Release(result: Ending) | Finished(result: Ending)
    | Load(profile: string, local: bool, force: bool)
    | Preflight(revert: Revert, force: bool, resuming: bool)
    | Claim(local: bool, journal: Journal)
    | Reverting(revert: Revert, plan: seq<Attempt>, degraded: seq<ObjectRecord>)
    | Consume(local: bool, journal: Journal, degraded: seq<ObjectRecord>)
    | Writing(journal: Journal, saving: Saving) | Renaming(journal: Journal, saving: Saving)
    | Checking(job: Job) | Polling(job: Job, before: bool)
    | CapturingBefore(job: Job) | ApplyingStep(job: Job) | CapturingAfter(job: Job)
    | Publishing(job: Job) | Dropping(job: Job)

  datatype Config = Config(pc: Pc, world: World)

  // -------------------------------------------------------------------- silent transitions

  /** Where a client goes once it holds the lock. */
  function Started(r: Request): Pc {
    match r
    case ApplyRequest(profile, runId, steps, keep) =>
      Checking(Job(steps, Journal(profile, runId, InProgress, []), keep, map[]))
    case RollbackRequest(profile, local, force) => Load(profile, local, force)
  }

  /** An apply whose host part failed: the journal is saved as failed. */
  function Failing(job: Job, reverted: bool): Pc {
    Writing(job.journal.(status := Status.Failed), FailedSave(reverted))
  }

  function RevertFailed(r: Revert, refused: bool): Pc {
    match r
    case ForCommand(_, _) => Release(if refused then Refused else Stuck)
    case ForFailure(job) => Failing(job, false)
    case ForCancel(job) => Failing(job, false)
  }

  function RevertDone(r: Revert, degraded: seq<ObjectRecord>): Pc {
    match r
    case ForCommand(local, journal) => Consume(local, journal, degraded)
    case ForFailure(job) => Failing(job, degraded == [])
    case ForCancel(job) => Failing(job, degraded == [])
  }

  /** Goes on with a plan: done, stopped by a missing plugin, or at the next restore. */
  function Resume(r: Revert, plan: seq<Attempt>, degraded: seq<ObjectRecord>): Pc {
    if plan == [] then RevertDone(r, degraded)
    else if plan[0].NoPlugin? then RevertFailed(r, false)
    else Reverting(r, plan, degraded)
  }

  function StepsOf(r: Revert): seq<StepRecord> {
    match r
    case ForCommand(_, journal) => journal.steps
    case ForFailure(job) => job.journal.steps
    case ForCancel(job) => job.journal.steps
  }

  /** The records an apply works on at this point. */
  function RecordsAt(pc: Pc): seq<StepRecord> {
    match pc
    case Checking(job) => job.journal.steps
    case Polling(job, _) => job.journal.steps
    case CapturingBefore(job) => job.journal.steps
    case ApplyingStep(job) => job.journal.steps
    case CapturingAfter(job) => job.journal.steps
    case Publishing(job) => job.journal.steps
    case Dropping(job) => job.journal.steps
    case Preflight(v, _, _) => StepsOf(v)
    case Reverting(v, _, _) => StepsOf(v)
    case Writing(j, _) => j.steps
    case Renaming(j, _) => j.steps
    case _ => []
  }

  function StepFailed(job: Job): Pc { Preflight(ForFailure(job), false, false) }

  function NextStep(job: Job): Pc { if job.todo == [] then Publishing(job) else Polling(job, true) }

  function Saved(registered: set<string>, s: Saving, ok: bool): Pc {
    match s
    case ClaimSave(journal) =>
      if ok then Resume(ForCommand(true, journal), Plan(registered, journal.steps), []) else Release(Refused)
    case FirstSave(job) => if ok then NextStep(job) else Release(NotApplied)
    case BeforeSave(job) => if ok then ApplyingStep(job) else StepFailed(job)
    case AfterSave(job) => if ok then Polling(job, false) else StepFailed(job)
    case InterruptedSave(job) =>
      if job.journal.steps == [] then Failing(job, true) else Preflight(ForCancel(job), false, false)
    case FailedSave(reverted) => Release(ApplyFailed(reverted))
    case FallbackSave => Release(NotPublished(ok))
    case KeepSave => Release(Applied)
  }

  // --------------------------------------------------------------------- atomic actions

  /** The values a plugin's apply leaves in the objects it may change. */
  function Effect(host: Host, keys: seq<ObjectId>, values: Host): Host {
    host + map k | k in values && k in keys :: values[k]
  }

  /** A capture reads exactly the step's objects, in whatever order the plugin emits them. */
  function CaptureOrder(keys: seq<ObjectId>, o: Outcome): seq<ObjectId> {
    if multiset(o.keys) == multiset(keys) then o.keys else keys
  }

  function Reads(host: Host, keys: seq<ObjectId>): seq<ObjectRecord> {
    seq(|keys|, i requires 0 <= i < |keys| => Read(host, keys[i]))
  }

  function Captured(host: Host, keys: seq<ObjectId>, o: Outcome): seq<ObjectRecord> {
    Reads(host, CaptureOrder(keys, o)) + o.policies
  }

  function RunIds(remote: map<RunKey, Journal>, profile: string): set<string> {
    set k | k in remote && k.profile == profile :: k.runId
  }

  ghost predicate IsLatest(ids: set<string>, id: string) {
    id in ids && forall x <- ids :: StringLe(x, id)
  }

  /** The greatest run name. */
  ghost function Latest(ids: set<string>): (r: Option<string>)
    ensures r.None? ==> forall id :: !IsLatest(ids, id)
    ensures r.Some? ==> IsLatest(ids, r.value)
  {
    if exists id :: IsLatest(ids, id) then var id :| IsLatest(ids, id); Some(id) else None
  }

  lemma LatestIs(ids: set<string>, id: string)
    requires IsLatest(ids, id)
    ensures Latest(ids) == Some(id)
  {
    OrdersAreTotal();
    hide StringLe;
    var l := Latest(ids);
    assert StringLe(l.value, id) && StringLe(id, l.value);
  }

  ghost function Loaded(w: World, profile: string, local: bool): Option<Journal> {
    if local then
      if profile in w.last && w.last[profile].Whole? then Some(w.last[profile].journal) else None
    else
      match Latest(RunIds(w.remote, profile)) case None => None case Some(id) =>
      var journal := w.remote[RunKey(profile, id)];
      if journal.runId == id then Some(journal) else None
  }

  ghost function OnLoad(profile: string, local: bool, force: bool, w: World, o: Outcome): Pc {
    if !o.ok then Release(Refused) else
    match Loaded(w, profile, local)
    case None => Release(Refused)
    case Some(journal) =>
      match journal.status
      case Success => Preflight(ForCommand(local, journal), force, false)
      case RollingBack => Preflight(ForCommand(local, journal), force, true)
      case _ => Release(Refused)
  }

  function OnPreflight(registered: set<string>, r: Revert, force: bool, resuming: bool, w: World, o: Outcome): Pc {
    var able := r.ForCommand? || o.ok;
    if able && PreflightPasses(View(w.host, o.blind), registered, StepsOf(r), force, resuming) then
      if r.ForCommand? then Claim(r.local, r.journal) else Resume(r, Plan(registered, StepsOf(r)), [])
    else RevertFailed(r, true)
  }

  function RemoteKey(j: Journal): RunKey { RunKey(j.profile, j.runId) }

  function OnClaim(registered: set<string>, local: bool, journal: Journal, w: World, o: Outcome): Config {
    var claimed := journal.(status := RollingBack);
    if local then OnWriting(claimed, ClaimSave(claimed), registered, w, o)
    else
      var w' := if Landed(o) then w.(remote := w.remote[RemoteKey(claimed) := claimed]) else w;
      Config(if o.ok then Resume(ForCommand(false, claimed), Plan(registered, claimed.steps), []) else Release(Refused), w')
  }

  function OnWriting(journal: Journal, saving: Saving, registered: set<string>, w: World, o: Outcome): Config {
    var w' := if Landed(o) then w.(tmp := w.tmp[journal.profile := Whole(journal)])
              else if o.torn then w.(tmp := w.tmp[journal.profile := Torn]) else w;
    Config(if o.ok then Renaming(journal, saving) else Saved(registered, saving, false), w')
  }

  function OnRenaming(journal: Journal, saving: Saving, registered: set<string>, w: World, o: Outcome): Config {
    var p := journal.profile;
    var w' := if Landed(o) && p in w.tmp then w.(last := w.last[p := w.tmp[p]], tmp := w.tmp - {p}) else w;
    Config(Saved(registered, saving, o.ok), w')
  }

  function OnReverting(r: Revert, plan: seq<Attempt>, degraded: seq<ObjectRecord>, w: World, o: Outcome): Config
    requires plan != [] && plan[0].Restore?
  {
    var obj := plan[0].record;
    var w' := if Landed(o) then w.(host := Put(w.host, obj)) else w;
    Config(if o.ok then Resume(r, plan[1..], degraded)
           else if plan[0].tolerant then Resume(r, plan[1..], degraded + [obj])
           else RevertFailed(r, false), w')
  }

  function OnConsume(local: bool, journal: Journal, degraded: seq<ObjectRecord>, w: World, o: Outcome): Config {
    var w' := if !Landed(o) then w
              else if local then w.(last := w.last - {journal.profile})
              else w.(remote := w.remote - {RemoteKey(journal)});
    Config(Release(if !o.ok then NotConsumed else if degraded == [] then RolledBack else Degraded(degraded)), w')
  }

  function OnCapturingBefore(job: Job, w: World, o: Outcome): Pc
    requires job.todo != []
  {
    if !o.ok then StepFailed(job) else
    var step := job.todo[0];
    var record := StepRecord(step.id, step.typ, o.mode, Captured(w.host, step.keys, o), [], o.reload);
    var journal := job.journal.(steps := job.journal.steps + [record]);
    Writing(journal, BeforeSave(job.(journal := journal)))
  }

  function OnApplyingStep(job: Job, w: World, o: Outcome): Config
    requires job.todo != []
  {
    Config(if o.ok then CapturingAfter(job) else StepFailed(job),
           w.(host := Effect(w.host, job.todo[0].keys, o.values)))
  }

  function OnCapturingAfter(job: Job, w: World, o: Outcome): Pc
    requires job.todo != [] && job.journal.steps != []
  {
    if !o.ok then StepFailed(job) else
    var n := |job.journal.steps| - 1;
    var record := job.journal.steps[n];
    var after := Captured(w.host, job.todo[0].keys, o);
    var journal := job.journal.(steps := job.journal.steps[n := record.(after := after)]);
    Writing(journal, AfterSave(job.(todo := job.todo[1..], journal := journal,
                                    changes := job.changes[record.id := Differ(record.before, after)])))
  }

  function OnPublishing(job: Job, registered: set<string>, w: World, o: Outcome): Config {
    var journal := job.journal.(status := Success);
    var w' := if Landed(o) then w.(remote := w.remote[RemoteKey(journal) := journal]) else w;
    Config(if !o.ok then Writing(journal, FallbackSave)
           else if job.keepLocal then Writing(journal, KeepSave) else Dropping(job), w')
  }

  /** Program points the machine can be at. */
  predicate Sound(pc: Pc) {
    match pc
    case Reverting(_, plan, _) => plan != [] && plan[0].Restore?
    case CapturingBefore(job) => job.todo != []
    case ApplyingStep(job) => job.todo != [] && job.journal.steps != []
    case CapturingAfter(job) => job.todo != [] && job.journal.steps != []
    case Polling(job, before) => before ==> job.todo != []
    case Writing(journal, s) => SoundSaving(s)
    case Renaming(journal, s) => SoundSaving(s)
    case _ => true
  }

  predicate SoundSaving(s: Saving) {
    s.BeforeSave? ==> s.job.todo != [] && s.job.journal.steps != []
  }

  /** One atomic action. */
  ghost function Next(registered: set<string>, pc: Pc, w: World, o: Outcome): Config
    requires Sound(pc)
  {
    match pc
    case Acquire(request) =>
      Config(if o.ok && !w.locked then Started(request) else Finished(NotLocked),
             if Landed(o) then w.(locked := true) else w)
    case Release(result) => Config(Finished(result), if Landed(o) then w.(locked := false) else w)
    case Finished(_) => Config(pc, w)
    case Load(profile, local, force) => Config(OnLoad(profile, local, force, w, o), w)
    case Preflight(r, force, resuming) => Config(OnPreflight(registered, r, force, resuming, w, o), w)
    case Claim(local, journal) => OnClaim(registered, local, journal, w, o)
    case Reverting(r, plan, degraded) => OnReverting(r, plan, degraded, w, o)
    case Consume(local, journal, degraded) => OnConsume(local, journal, degraded, w, o)
    case Writing(journal, saving) => OnWriting(journal, saving, registered, w, o)
    case Renaming(journal, saving) => OnRenaming(journal, saving, registered, w, o)
    case Checking(job) => Config(if o.ok then Writing(job.journal, FirstSave(job)) else Release(NotApplied), w)
    case Polling(job, before) =>
      Config(if !o.ok then Writing(job.journal.(status := Interrupted), InterruptedSave(job))
             else if before then CapturingBefore(job) else NextStep(job), w)
    case CapturingBefore(job) => Config(OnCapturingBefore(job, w, o), w)
    case ApplyingStep(job) => OnApplyingStep(job, w, o)
    case CapturingAfter(job) => Config(OnCapturingAfter(job, w, o), w)
    case Publishing(job) => OnPublishing(job, registered, w, o)
    case Dropping(job) =>
      Config(Release(Applied), if Landed(o) then w.(last := w.last - {job.journal.profile}) else w)
  }

  lemma NextIsSound(registered: set<string>, pc: Pc, w: World, o: Outcome)
    requires Sound(pc)
    ensures Sound(Next(registered, pc, w, o).pc)
  {
    hide Plan, Captured, PreflightPasses, Loaded, Differ, Effect;
  }

  /** A run of one client under one script; a script that ends early is a process that stops. */
  ghost function Exec(registered: set<string>, c: Config, s: Script): (r: Config)
    requires Sound(c.pc)
    ensures Sound(r.pc)
    decreases |s|
  {
    if s == [] || c.pc.Finished? then c
    else
      NextIsSound(registered, c.pc, c.world, s[0]);
      Exec(registered, Next(registered, c.pc, c.world, s[0]), s[1..])
  }

  /** The first action of a run. */
  lemma OneAction(registered: set<string>, pc: Pc, w: World, o: Outcome, rest: Script)
    requires Sound(pc) && !pc.Finished?
    ensures var c := Next(registered, pc, w, o);
      Sound(c.pc) && Exec(registered, Config(pc, w), [o] + rest) == Exec(registered, c, rest)
  {
    hide Next;
    NextIsSound(registered, pc, w, o);
    assert ([o] + rest)[1..] == rest;
  }

  /** A run goes on from where its first actions left it. */
  lemma {:induction false} ExecConcat(registered: set<string>, c: Config, s: Script, t: Script)
    requires Sound(c.pc)
    ensures Exec(registered, c, s + t) == Exec(registered, Exec(registered, c, s), t)
    decreases |s|
  {
    hide Next;
    if s == [] {
      assert s + t == t;
    } else if !c.pc.Finished? {
      assert (s + t)[1..] == s[1..] + t;
      NextIsSound(registered, c.pc, c.world, s[0]);
      ExecConcat(registered, Next(registered, c.pc, c.world, s[0]), s[1..], t);
    }
  }

  lemma FinishedStays(registered: set<string>, c: Config, o: Outcome)
    requires c.pc.Finished?
    ensures Next(registered, c.pc, c.world, o) == c
  {
  }

  lemma ExecSnoc(registered: set<string>, c: Config, s: Script, o: Outcome)
    requires Sound(c.pc)
    ensures var d := Exec(registered, c, s); Exec(registered, c, s + [o]) == Next(registered, d.pc, d.world, o)
  {
    ExecConcat(registered, c, s, [o]);
    var d := Exec(registered, c, s);
    if d.pc.Finished? { FinishedStays(registered, d, o); }
    NextIsSound(registered, d.pc, d.world, o);
    hide Next;
    assert [o][1..] == [];
  }
}
