/**
 * The SDE cache of src/sde/cache.rs and the reload loop of src/tasks.rs as a
 * transition system: every create, finished copy, rename, metadata write,
 * removal and parse is a step of its own, any fallible step may fail, and the
 * process may crash between any two. Renames are atomic.
 */
module Cache {
  import opened Wrappers

  /** The required files of a build. */
  datatype FileName = SolarSystems | Stargates | Types | TypeDogma

  const FILES: set<FileName> := {SolarSystems, Stargates, Types, TypeDogma}

  /** A file still being written, or everything the archive of `build` held under that name. */
  datatype Content = Partial | Whole(build: nat, name: FileName)

  datatype MetaContent = PartialMeta | Names(build: nat)

  /** `files` and `tmps` are keyed by build directory and name. */
  datatype Disk = Disk(
    files: map<(nat, FileName), Content>,
    tmps: map<(nat, FileName), Content>,
    meta: Option<MetaContent>,
    metaTmp: Option<MetaContent>)

  /** All a check of a build directory looks at: existence. */
  predicate FilesPresent(d: Disk, build: nat) {
    forall f :: f in FILES ==> (build, f) in d.files
  }

  /** The build the metadata file names, if it parses and the build's files exist. */
  function CurrentMetadata(d: Disk): Option<nat> {
    match d.meta
    case Some(Names(b)) => if FilesPresent(d, b) then Some(b) else None
    case _ => None
  }

  /** Loaded data: where each part was read from, under the build number it is served as. */
  datatype Snapshot = Snapshot(build: nat, systems: Content, gates: Content, types: Content, dogma: Content)

  /** All of one build, each part from its own file. */
  function Loaded(b: nat): Snapshot {
    Snapshot(b, Whole(b, SolarSystems), Whole(b, Stargates), Whole(b, Types), Whole(b, TypeDogma))
  }

  ghost predicate Coherent(s: Snapshot) {
    && s.systems == Whole(s.build, SolarSystems) && s.gates == Whole(s.build, Stargates)
    && s.types == Whole(s.build, Types) && s.dogma == Whole(s.build, TypeDogma)
  }

  /** Why a refresh runs: no usable cache, a usable cached build at startup, or the reload loop. */
  datatype Mode = Cold | Warm(cached: nat) | Reload

  datatype Job = Job(mode: Mode, build: nat)

  /** An archive entry that is unsafe or not required, or a required file. */
  datatype ZipEntry = Skipped | Wanted(name: FileName)

  /** What a load is for: the build just installed, or the cached one to serve at startup. */
  datatype Purpose = Installed(mode: Mode) | Cached

  datatype Pc =
    | Down
    | Booted
    | AwaitManifest(mode: Mode)
    | AwaitZip(job: Job)
    | Extracting(job: Job, todo: seq<ZipEntry>, found: set<FileName>)
    | Copying(job: Job, todo: seq<ZipEntry>, found: set<FileName>, name: FileName)
    | Renaming(job: Job, todo: seq<ZipEntry>, found: set<FileName>, name: FileName)
    | WritingMeta(job: Job)
    | RenamingMeta(job: Job)
    | Pruning(job: Job)
    | LoadCheck(purpose: Purpose, build: nat)
    | LoadSystems(purpose: Purpose, build: nat)
    | LoadGates(purpose: Purpose, build: nat, systems: Content)
    | LoadHulls(purpose: Purpose, build: nat, systems: Content, gates: Content)
    | Serving

  datatype State = State(disk: Disk, pc: Pc, live: Option<Snapshot>)

  datatype Step =
    | Boot | ReadMetadata | Tick
    | ManifestNames(latest: nat) | ZipArrives(entries: seq<ZipEntry>)
    | SkipEntry | CreateTmp | FinishCopy | RenameTmp | FinishExtract
    | FinishMeta | RenameMeta
    | PruneFile(victim: nat, name: FileName) | PruneTmp(victim: nat, name: FileName) | FinishPrune
    | FindFiles | ParseSystems | ParseGates | ParseHulls
    | Fail | Crash

  /** Where an error in a refresh leads. */
  function OnError(mode: Mode): Pc {
    match mode
    case Cold => Down
    case Warm(m) => LoadCheck(Cached, m)
    case Reload => Serving
  }

  function OnLoadError(p: Purpose): Pc {
    match p
    case Installed(mode) => OnError(mode)
    case Cached => Down
  }

  /** The build a refresh compares the manifest with. */
  function CurrentBuild(s: State, mode: Mode): Option<nat> {
    match mode
    case Cold => None
    case Warm(m) => Some(m)
    case Reload => if s.live.Some? then Some(s.live.value.build) else None
  }

  function UpToDate(mode: Mode): Pc {
    match mode
    case Warm(m) => LoadCheck(Cached, m)
    case _ => Serving
  }

  /** The program counter a failing step leaves, where one can fail. */
  function FailTo(pc: Pc): Option<Pc> {
    match pc
    case AwaitManifest(mode) => Some(OnError(mode))
    case AwaitZip(job) => Some(OnError(job.mode))
    case Extracting(job, _, _) => Some(OnError(job.mode))
    case Copying(job, _, _, _) => Some(OnError(job.mode))
    case Renaming(job, _, _, _) => Some(OnError(job.mode))
    case WritingMeta(job) => Some(OnError(job.mode))
    case RenamingMeta(job) => Some(OnError(job.mode))
    case LoadCheck(p, _) => Some(OnLoadError(p))
    case LoadSystems(p, _) => Some(OnLoadError(p))
    case LoadGates(p, _, _) => Some(OnLoadError(p))
    case LoadHulls(p, _, _, _) => Some(OnLoadError(p))
    case _ => None
  }

  /** A process that is down holds no data. */
  function Goto(s: State, pc: Pc): State {
    if pc.Down? then State(s.disk, Down, None) else s.(pc := pc)
  }

  /** The state after `step`, or None where it is not possible. */
  function Apply(s: State, step: Step): Option<State> {
    match step
    case Crash => Some(Goto(s, Down))
    case Fail => if FailTo(s.pc).Some? then Some(Goto(s, FailTo(s.pc).value)) else None
    case Boot => if s.pc.Down? then Some(s.(pc := Booted)) else None
    case Tick => if s.pc.Serving? then Some(s.(pc := AwaitManifest(Reload))) else None
    case ReadMetadata =>
      if s.pc.Booted? then
        var m := CurrentMetadata(s.disk);
        Some(s.(pc := AwaitManifest(if m.Some? then Warm(m.value) else Cold)))
      else None
    case ManifestNames(latest) =>
      if s.pc.AwaitManifest? then
        Some(s.(pc := if CurrentBuild(s, s.pc.mode) == Some(latest) then UpToDate(s.pc.mode)
                      else AwaitZip(Job(s.pc.mode, latest))))
      else None
    case ZipArrives(entries) =>
      if s.pc.AwaitZip? then Some(s.(pc := Extracting(s.pc.job, entries, {}))) else None
    case _ =>
      if step.SkipEntry? || step.CreateTmp? || step.FinishCopy? || step.RenameTmp? || step.FinishExtract? then ApplyExtract(s, step)
      else if step.FinishMeta? || step.RenameMeta? || step.PruneFile? || step.PruneTmp? || step.FinishPrune? then ApplyPromote(s, step)
      else ApplyLoad(s, step)
  }

  function ApplyExtract(s: State, step: Step): Option<State> {
    var d, pc := s.disk, s.pc;
    match step
    case SkipEntry =>
      if pc.Extracting? && pc.todo != [] && pc.todo[0].Skipped?
      then Some(s.(pc := Extracting(pc.job, pc.todo[1..], pc.found))) else None
    case CreateTmp =>
      if pc.Extracting? && pc.todo != [] && pc.todo[0].Wanted? then
        var f := pc.todo[0].name;
        Some(s.(disk := d.(tmps := d.tmps[(pc.job.build, f) := Partial]), pc := Copying(pc.job, pc.todo[1..], pc.found, f)))
      else None
    case FinishCopy =>
      if pc.Copying? then
        Some(s.(disk := d.(tmps := d.tmps[(pc.job.build, pc.name) := Whole(pc.job.build, pc.name)]),
                pc := Renaming(pc.job, pc.todo, pc.found, pc.name)))
      else None
    case RenameTmp =>
      if pc.Renaming? && (pc.job.build, pc.name) in d.tmps then
        var k := (pc.job.build, pc.name);
        Some(s.(disk := d.(files := d.files[k := d.tmps[k]], tmps := d.tmps - {k}),
                pc := Extracting(pc.job, pc.todo, pc.found + {pc.name})))
      else None
    case FinishExtract =>
      if pc.Extracting? && pc.todo == [] then
        if pc.found == FILES then Some(s.(disk := d.(metaTmp := Some(PartialMeta)), pc := WritingMeta(pc.job)))
        else Some(Goto(s, OnError(pc.job.mode)))
      else None
    case _ => None
  }

  function ApplyPromote(s: State, step: Step): Option<State> {
    var d, pc := s.disk, s.pc;
    match step
    case FinishMeta =>
      if pc.WritingMeta?
      then Some(s.(disk := d.(metaTmp := Some(Names(pc.job.build))), pc := RenamingMeta(pc.job))) else None
    case RenameMeta =>
      if pc.RenamingMeta? then Some(s.(disk := d.(meta := d.metaTmp, metaTmp := None), pc := Pruning(pc.job))) else None
    case PruneFile(victim, f) =>
      if pc.Pruning? && victim != pc.job.build then Some(s.(disk := d.(files := d.files - {(victim, f)}))) else None
    case PruneTmp(victim, f) =>
      if pc.Pruning? && victim != pc.job.build then Some(s.(disk := d.(tmps := d.tmps - {(victim, f)}))) else None
    case FinishPrune =>
      if pc.Pruning? then Some(s.(pc := LoadCheck(Installed(pc.job.mode), pc.job.build))) else None
    case _ => None
  }

  function ApplyLoad(s: State, step: Step): Option<State> {
    var d, pc := s.disk, s.pc;
    match step
    case FindFiles =>
      if pc.LoadCheck? && FilesPresent(d, pc.build) then Some(s.(pc := LoadSystems(pc.purpose, pc.build))) else None
    case ParseSystems =>
      if pc.LoadSystems? && (pc.build, SolarSystems) in d.files
      then Some(s.(pc := LoadGates(pc.purpose, pc.build, d.files[(pc.build, SolarSystems)]))) else None
    case ParseGates =>
      if pc.LoadGates? && (pc.build, Stargates) in d.files
      then Some(s.(pc := LoadHulls(pc.purpose, pc.build, pc.systems, d.files[(pc.build, Stargates)]))) else None
    case ParseHulls =>
      if pc.LoadHulls? && (pc.build, Types) in d.files && (pc.build, TypeDogma) in d.files then
        Some(s.(pc := Serving, live := Some(Snapshot(pc.build, pc.systems, pc.gates,
                                                    d.files[(pc.build, Types)], d.files[(pc.build, TypeDogma)]))))
      else None
    case _ => None
  }

  ghost predicate Next(s: State, s': State) {
    exists step :: Apply(s, step) == Some(s')
  }

  /** The process has not started; whatever is under a final name was put there whole. */
  ghost predicate Init(s: State) {
    s.pc.Down? && s.live.None? && FilesWhole(s.disk) && s.disk.meta != Some(PartialMeta)
  }

  ghost predicate IsRun(run: seq<State>) {
    run != [] && Init(run[0]) && forall i :: 0 <= i < |run| - 1 ==> Next(run[i], run[i + 1])
  }

  // ---------------------------------------------------------------- the invariant

  ghost predicate FilesWhole(d: Disk) {
    forall k :: k in d.files ==> d.files[k] == Whole(k.0, k.1)
  }

  ghost predicate FoundPresent(d: Disk, build: nat, found: set<FileName>) {
    forall f :: f in found ==> (build, f) in d.files
  }

  /** A warm refresh that has not yet promoted still has its cached build to fall back on. */
  ghost predicate FallbackReady(d: Disk, mode: Mode) {
    mode.Warm? ==> CurrentMetadata(d) == Some(mode.cached)
  }

  /** Startup has nothing live; the reload loop always has. */
  ghost predicate LiveFits(live: Option<Snapshot>, mode: Mode) {
    live.Some? <==> mode.Reload?
  }

  ghost predicate JobFits(s: State, job: Job) {
    FallbackReady(s.disk, job.mode) && LiveFits(s.live, job.mode)
  }

  ghost predicate LoadFits(s: State, p: Purpose) {
    match p
    case Installed(mode) => LiveFits(s.live, mode)
    case Cached => s.live.None?
  }

  ghost predicate PcInv(s: State) {
    var d := s.disk;
    match s.pc
    case Down => s.live.None?
    case Booted => s.live.None?
    case AwaitManifest(mode) => FallbackReady(d, mode) && LiveFits(s.live, mode)
    case AwaitZip(job) => JobFits(s, job)
    case Extracting(job, _, found) => JobFits(s, job) && FoundPresent(d, job.build, found)
    case Copying(job, _, found, _) => JobFits(s, job) && FoundPresent(d, job.build, found)
    case Renaming(job, _, found, f) =>
      JobFits(s, job) && FoundPresent(d, job.build, found)
      && (job.build, f) in d.tmps && d.tmps[(job.build, f)] == Whole(job.build, f)
    case WritingMeta(job) => JobFits(s, job) && FilesPresent(d, job.build)
    case RenamingMeta(job) => JobFits(s, job) && FilesPresent(d, job.build) && d.metaTmp == Some(Names(job.build))
    case Pruning(job) => LiveFits(s.live, job.mode) && CurrentMetadata(d) == Some(job.build)
    case LoadCheck(p, _) => LoadFits(s, p)
    case LoadSystems(p, b) => LoadFits(s, p) && FilesPresent(d, b)
    case LoadGates(p, b, sys) => LoadFits(s, p) && FilesPresent(d, b) && sys == Whole(b, SolarSystems)
    case LoadHulls(p, b, sys, gates) => LoadFits(s, p) && FilesPresent(d, b) && sys == Whole(b, SolarSystems) && gates == Whole(b, Stargates)
    case Serving => s.live.Some?
  }

  ghost predicate Inv(s: State) {
    && FilesWhole(s.disk) && s.disk.meta != Some(PartialMeta)
    && (s.live.Some? ==> Coherent(s.live.value))
    && PcInv(s)
  }

  /** What one step may do to the disk's current build. */
  ghost predicate KeepsCurrent(s: State, s': State) {
    CurrentMetadata(s.disk).Some? ==>
      || CurrentMetadata(s'.disk) == CurrentMetadata(s.disk)
      || (s.pc.RenamingMeta? && CurrentMetadata(s'.disk) == Some(s.pc.job.build))
  }

  lemma ExtractKeeps(s: State, step: Step)
    requires Inv(s) && ApplyExtract(s, step).Some?
    ensures Inv(ApplyExtract(s, step).value) && KeepsCurrent(s, ApplyExtract(s, step).value)
  {
  }

  lemma PromoteKeeps(s: State, step: Step)
    requires Inv(s) && ApplyPromote(s, step).Some?
    ensures Inv(ApplyPromote(s, step).value) && KeepsCurrent(s, ApplyPromote(s, step).value)
  {
  }

  lemma LoadKeeps(s: State, step: Step)
    requires Inv(s) && ApplyLoad(s, step).Some?
    ensures Inv(ApplyLoad(s, step).value) && KeepsCurrent(s, ApplyLoad(s, step).value)
  {
  }

  /** Starting, ticking, answers from the network, errors and crashes leave the disk alone. */
  predicate IsControl(step: Step) {
    step.Boot? || step.ReadMetadata? || step.Tick? || step.ManifestNames? || step.ZipArrives? || step.Fail? || step.Crash?
  }

  lemma ControlKeeps(s: State, step: Step)
    requires Inv(s) && IsControl(step) && Apply(s, step).Some?
    ensures Inv(Apply(s, step).value) && Apply(s, step).value.disk == s.disk
  {
    hide FilesWhole, FilesPresent, Coherent;
  }

  lemma OtherwiseByPhase(s: State, step: Step)
    requires !IsControl(step) && Apply(s, step).Some?
    ensures Apply(s, step) == ApplyExtract(s, step) || Apply(s, step) == ApplyPromote(s, step)
            || Apply(s, step) == ApplyLoad(s, step)
  {
    hide ApplyExtract, ApplyPromote, ApplyLoad;
  }

  /** Every step keeps the invariant, and a usable current build stays usable. */
  lemma StepKeeps(s: State, s': State)
    requires Inv(s) && Next(s, s')
    ensures Inv(s') && KeepsCurrent(s, s')
  {
    hide Apply, ApplyExtract, ApplyPromote, ApplyLoad, Inv, CurrentMetadata;
    var step :| Apply(s, step) == Some(s');
    if IsControl(step) {
      ControlKeeps(s, step);
    } else {
      OtherwiseByPhase(s, step);
      if Apply(s, step) == ApplyExtract(s, step) {
        ExtractKeeps(s, step);
      } else if Apply(s, step) == ApplyPromote(s, step) {
        PromoteKeeps(s, step);
      } else {
        LoadKeeps(s, step);
      }
    }
  }

  lemma {:induction false} RunKeeps(run: seq<State>, i: nat)
    requires IsRun(run) && i < |run|
    ensures Inv(run[i])
  {
    if i > 0 {
      RunKeeps(run, i - 1);
      assert Next(run[i - 1], run[i - 1 + 1]);
      StepKeeps(run[i - 1], run[i]);
    }
  }

  // ---------------------------------------------------------------- safety over every run

  /** A build the metadata names as current has all its files completely written. */
  lemma CurrentIsWhole(run: seq<State>, i: nat, b: nat)
    requires IsRun(run) && i < |run| && CurrentMetadata(run[i].disk) == Some(b)
    ensures forall f :: f in FILES ==> (b, f) in run[i].disk.files && run[i].disk.files[(b, f)] == Whole(b, f)
  {
    RunKeeps(run, i);
  }

  /** Once some build is current, some build is current ever after, crashes included. */
  lemma {:induction false} CurrentStays(run: seq<State>, i: nat, j: nat)
    requires IsRun(run) && i <= j < |run| && CurrentMetadata(run[i].disk).Some?
    ensures CurrentMetadata(run[j].disk).Some?
    decreases j
  {
    hide Inv, Next, CurrentMetadata;
    if i < j {
      CurrentStays(run, i, j - 1);
      RunKeeps(run, j - 1);
      assert Next(run[j - 1], run[j - 1 + 1]);
      StepKeeps(run[j - 1], run[j]);
    }
  }

  /** Whatever is being served was read from one build's complete files. */
  lemma LiveIsCoherent(run: seq<State>, i: nat)
    requires IsRun(run) && i < |run| && run[i].live.Some?
    ensures Coherent(run[i].live.value)
  {
    RunKeeps(run, i);
  }

  /** Data changes hands only when the process goes down or a build has been read to the end. */
  lemma LiveChangesOnlyByLoad(s: State, s': State)
    requires Inv(s) && Next(s, s')
    ensures || s'.live == s.live
            || (s'.pc.Down? && s'.live.None?)
            || (s.pc.LoadHulls? && s'.pc.Serving? && s'.live.Some? && s'.live.value.build == s.pc.build
                && Coherent(s'.live.value) && FilesPresent(s.disk, s.pc.build))
  {
    hide Apply, FilesPresent, FilesWhole;
    StepKeeps(s, s');
    var step :| Apply(s, step) == Some(s');
    OnlyLoadSwaps(s, step);
  }

  lemma OnlyLoadSwaps(s: State, step: Step)
    requires Apply(s, step).Some?
    ensures var t := Apply(s, step).value;
            || t.live == s.live
            || (t.pc.Down? && t.live.None?)
            || (s.pc.LoadHulls? && t.pc.Serving? && t.live.Some? && t.live.value.build == s.pc.build)
  {
    hide CurrentMetadata, FilesPresent;
  }

  /** The steps `i..j` of a run neither crash nor finish a load. */
  ghost predicate NothingLoaded(run: seq<State>, i: nat, j: nat)
    requires i <= j < |run|
  {
    forall k :: i < k <= j ==> !run[k].pc.Down? && !(run[k - 1].pc.LoadHulls? && run[k].pc.Serving?)
  }

  /** A tick that fails, at whatever point, leaves what is served unchanged. */
  lemma {:induction false} FailedTickChangesNothing(run: seq<State>, i: nat, j: nat)
    requires IsRun(run) && i <= j < |run| && NothingLoaded(run, i, j)
    ensures run[j].live == run[i].live
    decreases j
  {
    hide Apply, Inv, FilesPresent, Init;
    if i < j {
      FailedTickChangesNothing(run, i, j - 1);
      RunKeeps(run, j - 1);
      assert Next(run[j - 1], run[j - 1 + 1]);
      LiveChangesOnlyByLoad(run[j - 1], run[j]);
    }
  }

  /** A build's file is removed only once another build is current, and then wholly on disk. */
  lemma PruneOnlySuperseded(s: State, s': State, k: (nat, FileName))
    requires Inv(s) && Next(s, s') && k in s.disk.files && k !in s'.disk.files
    ensures CurrentMetadata(s.disk).Some? && CurrentMetadata(s.disk).value != k.0
    ensures CurrentMetadata(s'.disk) == CurrentMetadata(s.disk)
  {
    var step :| Apply(s, step) == Some(s');
    OnlyPruningRemoves(s, step, k);
    PruneKeepsCurrent(s, step.victim, step.name);
  }

  lemma OnlyPruningRemoves(s: State, step: Step, k: (nat, FileName))
    requires Apply(s, step).Some? && k in s.disk.files && k !in Apply(s, step).value.disk.files
    ensures step == PruneFile(k.0, k.1) && s.pc.Pruning? && k.0 != s.pc.job.build
  {
  }

  lemma PruneKeepsCurrent(s: State, victim: nat, f: FileName)
    requires Inv(s) && s.pc.Pruning? && victim != s.pc.job.build
    ensures Apply(s, PruneFile(victim, f)).Some?
    ensures CurrentMetadata(Apply(s, PruneFile(victim, f)).value.disk) == CurrentMetadata(s.disk) == Some(s.pc.job.build)
  {
    PromoteKeeps(s, PruneFile(victim, f));
  }

  /** A startup refresh that fails before promoting its build can still load the cached one. */
  lemma EarlyFailureFallsBack(s: State, mode: Mode)
    requires Inv(s) && mode.Warm?
    requires match s.pc
             case AwaitManifest(m) => m == mode
             case AwaitZip(job) => job.mode == mode
             case Extracting(job, _, _) => job.mode == mode
             case Copying(job, _, _, _) => job.mode == mode
             case Renaming(job, _, _, _) => job.mode == mode
             case WritingMeta(job) => job.mode == mode
             case RenamingMeta(job) => job.mode == mode
             case _ => false
    ensures Apply(s, Fail) == Some(s.(pc := LoadCheck(Cached, mode.cached)))
    ensures Apply(s.(pc := LoadCheck(Cached, mode.cached)), FindFiles).Some?
  {
  }

  // ---------------------------------------------------------------- an undisturbed install

  function RunSteps(s: State, steps: seq<Step>): Option<State>
    decreases |steps|
  {
    if steps == [] then Some(s)
    else
      var t := Apply(s, steps[0]);
      if t.None? then None else RunSteps(t.value, steps[1..])
  }

  lemma {:induction false} RunStepsConcat(s: State, xs: seq<Step>, ys: seq<Step>)
    requires RunSteps(s, xs).Some?
    ensures RunSteps(s, xs + ys) == RunSteps(RunSteps(s, xs).value, ys)
    decreases |xs|
  {
    hide Apply;
    if xs == [] {
      assert xs + ys == ys;
    } else {
      assert (xs + ys)[1..] == xs[1..] + ys;
      RunStepsConcat(Apply(s, xs[0]).value, xs[1..], ys);
    }
  }

  function EntrySteps(e: ZipEntry): seq<Step> {
    if e.Skipped? then [SkipEntry] else [CreateTmp, FinishCopy, RenameTmp]
  }

  function ArchiveSteps(todo: seq<ZipEntry>): seq<Step> {
    if todo == [] then [] else EntrySteps(todo[0]) + ArchiveSteps(todo[1..])
  }

  function Required(todo: seq<ZipEntry>): (r: set<FileName>)
    ensures forall f :: f in r <==> Wanted(f) in todo
  {
    if todo == [] then {}
    else
      assert todo == [todo[0]] + todo[1..];
      Required(todo[1..]) + if todo[0].Wanted? then {todo[0].name} else {}
  }

  lemma OneEntry(s: State)
    requires s.pc.Extracting? && s.pc.todo != []
    ensures var e := s.pc.todo[0];
            var t := RunSteps(s, EntrySteps(e));
            && t.Some? && t.value.live == s.live && t.value.disk.meta == s.disk.meta
            && t.value.pc == Extracting(s.pc.job, s.pc.todo[1..], s.pc.found + if e.Wanted? then {e.name} else {})
  {
    var e := s.pc.todo[0];
    hide Apply;
    if e.Wanted? {
      EntryApplies(s);
      var s1 := Apply(s, CreateTmp).value;
      var s2 := Apply(s1, FinishCopy).value;
      RunOne(s2, RenameTmp, []);
      RunOne(s1, FinishCopy, [RenameTmp]);
      RunOne(s, CreateTmp, [FinishCopy, RenameTmp]);
    } else {
      SkipApplies(s);
      RunOne(s, SkipEntry, []);
      assert s.pc.found + {} == s.pc.found;
    }
  }

  lemma EntryApplies(s: State)
    requires s.pc.Extracting? && s.pc.todo != [] && s.pc.todo[0].Wanted?
    ensures Apply(s, CreateTmp).Some?
    ensures var s1 := Apply(s, CreateTmp).value;
            && Apply(s1, FinishCopy).Some?
            && var s2 := Apply(s1, FinishCopy).value;
               && Apply(s2, RenameTmp).Some?
               && var t := Apply(s2, RenameTmp).value;
                  && t.live == s.live && t.disk.meta == s.disk.meta
                  && t.pc == Extracting(s.pc.job, s.pc.todo[1..], s.pc.found + {s.pc.todo[0].name})
  {
    hide CurrentMetadata;
  }

  lemma SkipApplies(s: State)
    requires s.pc.Extracting? && s.pc.todo != [] && s.pc.todo[0].Skipped?
    ensures Apply(s, SkipEntry) == Some(s.(pc := Extracting(s.pc.job, s.pc.todo[1..], s.pc.found)))
  {
    hide CurrentMetadata;
  }

  lemma {:induction false} WholeArchive(s: State)
    requires s.pc.Extracting?
    ensures var t := RunSteps(s, ArchiveSteps(s.pc.todo));
            && t.Some? && t.value.live == s.live && t.value.disk.meta == s.disk.meta
            && t.value.pc == Extracting(s.pc.job, [], s.pc.found + Required(s.pc.todo))
    decreases |s.pc.todo|
  {
    var todo := s.pc.todo;
    if todo == [] {
      assert s.pc.found + {} == s.pc.found;
    } else {
      OneEntry(s);
      var t := RunSteps(s, EntrySteps(todo[0])).value;
      RunStepsConcat(s, EntrySteps(todo[0]), ArchiveSteps(todo[1..]));
      WholeArchive(t);
      assert t.pc.found + Required(todo[1..]) == s.pc.found + Required(todo);
    }
  }

  /**
   * Undisturbed, an archive leads to its promotion exactly when it holds every
   * required file, whatever the order and repetition of its entries; otherwise
   * the metadata is untouched and the refresh has failed.
   */
  lemma CompleteArchiveIsPromoted(s: State, entries: seq<ZipEntry>)
    requires Inv(s) && s.pc.AwaitZip?
    ensures var t := RunSteps(s, [ZipArrives(entries)] + ArchiveSteps(entries) + [FinishExtract]);
            && t.Some? && t.value.disk.meta == s.disk.meta
            && (if forall f :: f in FILES ==> Wanted(f) in entries
                then t.value.pc == WritingMeta(s.pc.job) && t.value.live == s.live
                else t.value.pc == OnError(s.pc.job.mode))
  {
    hide Apply, Inv;
    var s1 := s.(pc := Extracting(s.pc.job, entries, {}));
    ZipStarts(s, entries);
    var steps := ArchiveSteps(entries);
    WholeArchive(s1);
    var s2 := RunSteps(s1, steps).value;
    assert {} + Required(entries) == Required(entries);
    ExtractEnds(s2, entries);
    RunStepsConcat(s1, steps, [FinishExtract]);
    RunOne(s, ZipArrives(entries), steps + [FinishExtract]);
    assert [ZipArrives(entries)] + (steps + [FinishExtract]) == [ZipArrives(entries)] + steps + [FinishExtract];
  }

  lemma ZipStarts(s: State, entries: seq<ZipEntry>)
    requires s.pc.AwaitZip?
    ensures Apply(s, ZipArrives(entries)) == Some(s.(pc := Extracting(s.pc.job, entries, {})))
  {
  }

  lemma ExtractEnds(s: State, entries: seq<ZipEntry>)
    requires s.pc.Extracting? && s.pc.todo == [] && s.pc.found == Required(entries)
    ensures var t := RunSteps(s, [FinishExtract]);
            && t.Some? && t.value.disk.meta == s.disk.meta
            && (if forall f :: f in FILES ==> Wanted(f) in entries
                then t.value.pc == WritingMeta(s.pc.job) && t.value.live == s.live
                else t.value == Goto(s, OnError(s.pc.job.mode)))
  {
    var t := Apply(s, FinishExtract).value;
    assert RunSteps(t, [FinishExtract][1..]) == Some(t);
    assert Required(entries) == FILES <==> forall f :: f in FILES ==> Wanted(f) in entries by {
      forall f: FileName ensures f in FILES {
        match f case SolarSystems => case Stargates => case Types => case TypeDogma =>
      }
    }
  }

  /** From there the build is promoted, loaded and served. */
  lemma PromotedIsServed(s: State)
    requires Inv(s) && s.pc.WritingMeta?
    ensures var t := RunSteps(s, [FinishMeta, RenameMeta, FinishPrune] + [FindFiles, ParseSystems, ParseGates, ParseHulls]);
            var b := s.pc.job.build;
            && t.Some? && t.value.pc.Serving? && CurrentMetadata(t.value.disk) == Some(b)
            && t.value.live == Some(Loaded(b))
  {
    hide Apply;
    PromoteEnds(s);
    RunStepsConcat(s, [FinishMeta, RenameMeta, FinishPrune], [FindFiles, ParseSystems, ParseGates, ParseHulls]);
    LoadServes(RunSteps(s, [FinishMeta, RenameMeta, FinishPrune]).value);
  }

  lemma PromoteEnds(s: State)
    requires s.pc.WritingMeta?
    ensures RunSteps(s, [FinishMeta, RenameMeta, FinishPrune]) ==
            Some(State(s.disk.(meta := Some(Names(s.pc.job.build)), metaTmp := None),
                       LoadCheck(Installed(s.pc.job.mode), s.pc.job.build), s.live))
  {
    var s1 := Apply(s, FinishMeta).value;
    var s2 := Apply(s1, RenameMeta).value;
    RunOne(s2, FinishPrune, []);
    RunOne(s1, RenameMeta, [FinishPrune]);
    RunOne(s, FinishMeta, [RenameMeta, FinishPrune]);
  }

  /** A build whose files are all there, and parse, is served as one coherent snapshot. */
  lemma LoadServes(s: State)
    requires FilesWhole(s.disk) && s.pc.LoadCheck? && FilesPresent(s.disk, s.pc.build)
    ensures var b := s.pc.build;
            RunSteps(s, [FindFiles, ParseSystems, ParseGates, ParseHulls]) ==
            Some(State(s.disk, Serving, Some(Loaded(b))))
  {
    hide Apply, FilesWhole, FilesPresent;
    var l := LoadStates(s);
    LoadApplies(s);
    RunOne(l[3], ParseHulls, []);
    RunOne(l[2], ParseGates, [ParseHulls]);
    RunOne(l[1], ParseSystems, [ParseGates, ParseHulls]);
    RunOne(l[0], FindFiles, [ParseSystems, ParseGates, ParseHulls]);
  }

  lemma PartsAreWhole(d: Disk, b: nat)
    requires FilesWhole(d) && FilesPresent(d, b)
    ensures forall f :: (b, f) in d.files && d.files[(b, f)] == Whole(b, f)
  {
    forall f ensures (b, f) in d.files {
      AllRequired(f);
    }
  }

  lemma RunOne(s: State, step: Step, rest: seq<Step>)
    requires Apply(s, step).Some?
    ensures RunSteps(s, [step] + rest) == RunSteps(Apply(s, step).value, rest)
  {
    assert ([step] + rest)[1..] == rest;
  }

  // ---------------------------------------------------------------- builds that do not parse

  /** A load is finished only for a build whose files parse. */
  predicate Allowed(parses: nat -> bool, s: State, step: Step) {
    step.ParseHulls? && s.pc.LoadHulls? ==> parses(s.pc.build)
  }

  ghost predicate NextWith(parses: nat -> bool, s: State, s': State) {
    exists step :: Apply(s, step) == Some(s') && Allowed(parses, s, step)
  }

  /** Any stretch of a run in which `parses` says which builds parse. */
  ghost predicate IsStretch(parses: nat -> bool, run: seq<State>) {
    run != [] && Inv(run[0]) && forall i :: 0 < i < |run| ==> NextWith(parses, run[i - 1], run[i])
  }

  /** The manifest names a build other than `b`, and its download begins. */
  predicate NamesAnother(s: State, s': State, b: nat) {
    s.pc.AwaitManifest? && s'.pc.AwaitZip? && s'.pc.job.build != b
  }

  /** Nothing is served, `b` is current, and the process is down or trying to start from `b`. */
  ghost predicate Stuck(s: State, b: nat) {
    && s.live.None? && CurrentMetadata(s.disk) == Some(b)
    && match s.pc
       case Down => true
       case Booted => true
       case AwaitManifest(mode) => mode == Warm(b)
       case LoadCheck(p, x) => p == Cached && x == b
       case LoadSystems(p, x) => p == Cached && x == b
       case LoadGates(p, x, _) => p == Cached && x == b
       case LoadHulls(p, x, _, _) => p == Cached && x == b
       case _ => false
  }

  lemma StuckStep(parses: nat -> bool, s: State, s': State, b: nat)
    requires !parses(b) && Stuck(s, b) && NextWith(parses, s, s') && !NamesAnother(s, s', b)
    ensures Stuck(s', b)
  {
    hide FilesPresent;
    var step :| Apply(s, step) == Some(s') && Allowed(parses, s, step);
    if !IsControl(step) {
      OtherwiseByPhase(s, step);
    }
  }

  /**
   * Pruning precedes parsing, so a promoted build that does not parse leaves
   * nothing to start from: over any stretch of a run that begins with the
   * process down, whatever fails, crashes and restarts, nothing is served
   * until the manifest names another build.
   */
  lemma {:induction false} UnparsableBuildBlocksStart(parses: nat -> bool, run: seq<State>, i: nat, j: nat, b: nat)
    requires IsStretch(parses, run) && i <= j < |run|
    requires run[i].pc.Down? && CurrentMetadata(run[i].disk) == Some(b) && !parses(b)
    requires forall k :: i < k <= j ==> !NamesAnother(run[k - 1], run[k], b)
    ensures Stuck(run[j], b) && !run[j].pc.Serving?
    decreases j
  {
    hide NextWith, Stuck, CurrentMetadata, Inv;
    if i == j {
      StretchKeeps(parses, run, i);
      DownIsStuck(run[i], b);
    } else {
      UnparsableBuildBlocksStart(parses, run, i, j - 1, b);
      StuckStep(parses, run[j - 1], run[j], b);
    }
    StuckIsNotServing(run[j], b);
  }

  lemma DownIsStuck(s: State, b: nat)
    requires Inv(s) && s.pc.Down? && CurrentMetadata(s.disk) == Some(b)
    ensures Stuck(s, b)
  {
  }

  lemma StuckIsNotServing(s: State, b: nat)
    requires Stuck(s, b)
    ensures !s.pc.Serving?
  {
  }

  lemma {:induction false} StretchKeeps(parses: nat -> bool, run: seq<State>, i: nat)
    requires IsStretch(parses, run) && i < |run|
    ensures Inv(run[i])
    decreases i
  {
    hide Inv, Apply;
    if i > 0 {
      StretchKeeps(parses, run, i - 1);
      assert NextWith(parses, run[i - 1], run[i]);
      StepKeeps(run[i - 1], run[i]);
    }
  }

  /** `run` starts the service from `s` without the manifest naming another build than `b`. */
  ghost predicate ServesWithoutNewBuild(parses: nat -> bool, s: State, b: nat, run: seq<State>) {
    && IsStretch(parses, run) && run[0] == s && run[|run| - 1].pc.Serving?
    && forall k :: 0 < k < |run| ==> !NamesAnother(run[k - 1], run[k], b)
  }

  /** With no answer from the network, a current build that parses is served. */
  lemma StartsOffline(parses: nat -> bool, s: State, b: nat) returns (run: seq<State>)
    requires Inv(s) && s.pc.Down? && CurrentMetadata(s.disk) == Some(b) && parses(b)
    ensures ServesWithoutNewBuild(parses, s, b, run)
    ensures run[|run| - 1].live == Some(Loaded(b))
  {
    hide FilesPresent, FilesWhole, Inv, Apply, Loaded;
    var start := [s, s.(pc := Booted), s.(pc := AwaitManifest(Warm(b)))];
    var loading := LoadStates(s.(pc := LoadCheck(Cached, b)));
    run := start + loading;
    var steps := [Boot, ReadMetadata, Fail, FindFiles, ParseSystems, ParseGates, ParseHulls];
    OfflineApplies(s, b);
    InvMeansWhole(s);
    LoadApplies(loading[0]);
    forall i | 0 < i < |run|
      ensures NextWith(parses, run[i - 1], run[i])
    {
      assert Apply(run[i - 1], steps[i - 1]) == Some(run[i]) && Allowed(parses, run[i - 1], steps[i - 1]);
    }
  }

  /** The states a load of `s.pc.build` goes through. */
  function LoadStates(s: State): seq<State>
    requires s.pc.LoadCheck?
  {
    var p, b, sys, gates := s.pc.purpose, s.pc.build, Whole(s.pc.build, SolarSystems), Whole(s.pc.build, Stargates);
    [s, s.(pc := LoadSystems(p, b)), s.(pc := LoadGates(p, b, sys)), s.(pc := LoadHulls(p, b, sys, gates)),
     State(s.disk, Serving, Some(Loaded(b)))]
  }

  lemma LoadApplies(s: State)
    requires s.pc.LoadCheck? && FilesWhole(s.disk) && FilesPresent(s.disk, s.pc.build)
    ensures var l := LoadStates(s);
            && Apply(l[0], FindFiles) == Some(l[1]) && Apply(l[1], ParseSystems) == Some(l[2])
            && Apply(l[2], ParseGates) == Some(l[3]) && Apply(l[3], ParseHulls) == Some(l[4])
  {
    PartsAreWhole(s.disk, s.pc.build);
    hide FilesWhole, FilesPresent, CurrentMetadata;
  }

  lemma InvMeansWhole(s: State)
    requires Inv(s)
    ensures FilesWhole(s.disk)
  {
    hide FilesWhole;
  }

  lemma OfflineApplies(s: State, b: nat)
    requires s.pc.Down? && CurrentMetadata(s.disk) == Some(b)
    ensures Apply(s, Boot) == Some(s.(pc := Booted))
    ensures Apply(s.(pc := Booted), ReadMetadata) == Some(s.(pc := AwaitManifest(Warm(b))))
    ensures Apply(s.(pc := AwaitManifest(Warm(b))), Fail) == Some(s.(pc := LoadCheck(Cached, b)))
    ensures FilesPresent(s.disk, b)
  {
    hide FilesPresent;
  }

  /** From a stopped process, the current build alone can bring the service up exactly when it parses. */
  lemma CurrentBuildStartsIff(parses: nat -> bool, s: State, b: nat)
    requires Inv(s) && s.pc.Down? && CurrentMetadata(s.disk) == Some(b)
    ensures (exists run :: ServesWithoutNewBuild(parses, s, b, run)) <==> parses(b)
  {
    hide Inv, CurrentMetadata, IsStretch, Stuck;
    if parses(b) {
      var run := StartsOffline(parses, s, b);
    } else if run :| ServesWithoutNewBuild(parses, s, b, run) {
      assert run != [] by { StretchNotEmpty(parses, run); }
      UnparsableBuildBlocksStart(parses, run, 0, |run| - 1, b);
    }
  }

  lemma StretchNotEmpty(parses: nat -> bool, run: seq<State>)
    requires IsStretch(parses, run)
    ensures run != []
  {
  }

  /**
   * A reload brings that about while serving an older build: the new build is
   * promoted before it is parsed, and a parse failure leaves it current.
   * No step here finishes a load, so nothing depends on which builds parse.
   */
  lemma ReloadPromotesUnparsed(s: State, b: nat, entries: seq<ZipEntry>)
    requires Inv(s) && s.pc.Serving? && s.live.value.build != b && forall f :: f in FILES ==> Wanted(f) in entries
    ensures var fetch := [Tick, ManifestNames(b)] + ([ZipArrives(entries)] + ArchiveSteps(entries) + [FinishExtract]);
            var t := RunSteps(s, fetch + ([FinishMeta, RenameMeta, FinishPrune] + [Fail]));
            && t.Some? && t.value.pc.Serving? && t.value.live == s.live && CurrentMetadata(t.value.disk) == Some(b)
            && Apply(t.value, Crash) == Some(State(t.value.disk, Down, None))
  {
    hide Apply, Inv, FilesWhole;
    var zip := [ZipArrives(entries)] + ArchiveSteps(entries) + [FinishExtract];
    var promote := [FinishMeta, RenameMeta, FinishPrune];
    var s1 := s.(pc := AwaitZip(Job(Reload, b)));
    ReloadAsks(s, b);
    RunStepsConcat(s, [Tick, ManifestNames(b)], zip);
    CompleteArchiveIsPromoted(s1, entries);
    var s2 := RunSteps(s1, zip).value;
    StepsKeepInv(s1, zip);
    var fetch := [Tick, ManifestNames(b)] + zip;
    RunStepsConcat(s, fetch, promote + [Fail]);
    PromoteEnds(s2);
    RunStepsConcat(s2, promote, [Fail]);
    var s3 := RunSteps(s2, promote).value;
    LoadFails(s3);
    PromotedIsCurrent(s2);
  }

  /** A reload that finds the build it serves still the latest touches nothing. */
  lemma {:induction false} UpToDateReloadIsQuiet(s: State)
    requires s.pc.Serving? && s.live.Some?
    ensures RunSteps(s, [Tick, ManifestNames(s.live.value.build)]) == Some(s)
  {
    var s1, latest := s.(pc := AwaitManifest(Reload)), s.live.value.build;
    RunOne(s1, ManifestNames(latest), []);
    RunOne(s, Tick, [ManifestNames(latest)]);
  }

  /** A start that finds its cached build still the latest loads it without fetching anything. */
  lemma {:induction false} UpToDateStartLoads(s: State, b: nat)
    requires s.pc.Down? && CurrentMetadata(s.disk) == Some(b)
    ensures RunSteps(s, [Boot, ReadMetadata, ManifestNames(b)]) == Some(s.(pc := LoadCheck(Cached, b)))
  {
    var s1, s2 := s.(pc := Booted), s.(pc := AwaitManifest(Warm(b)));
    RunOne(s2, ManifestNames(b), []);
    RunOne(s1, ReadMetadata, [ManifestNames(b)]);
    RunOne(s, Boot, [ReadMetadata, ManifestNames(b)]);
  }

  lemma ReloadAsks(s: State, b: nat)
    requires Inv(s) && s.pc.Serving? && s.live.value.build != b
    ensures RunSteps(s, [Tick, ManifestNames(b)]) == Some(s.(pc := AwaitZip(Job(Reload, b))))
    ensures Inv(s.(pc := AwaitZip(Job(Reload, b))))
  {
    var s1 := s.(pc := AwaitManifest(Reload));
    RunOne(s1, ManifestNames(b), []);
    RunOne(s, Tick, [ManifestNames(b)]);
  }

  lemma LoadFails(s: State)
    requires s.pc.LoadCheck? && s.pc.purpose == Installed(Reload)
    ensures RunSteps(s, [Fail]) == Some(s.(pc := Serving))
    ensures Apply(s.(pc := Serving), Crash) == Some(State(s.disk, Down, None))
  {
    RunOne(s, Fail, []);
  }

  lemma {:induction false} StepsKeepInv(s: State, steps: seq<Step>)
    requires Inv(s) && RunSteps(s, steps).Some?
    ensures Inv(RunSteps(s, steps).value)
    decreases |steps|
  {
    hide Inv, Apply;
    if steps != [] {
      var t := Apply(s, steps[0]).value;
      assert Next(s, t);
      StepKeeps(s, t);
      StepsKeepInv(t, steps[1..]);
    }
  }

  lemma PromotedIsCurrent(s: State)
    requires Inv(s) && s.pc.WritingMeta?
    ensures CurrentMetadata(s.disk.(meta := Some(Names(s.pc.job.build)), metaTmp := None)) == Some(s.pc.job.build)
  {
  }

  // ---------------------------------------------------------------- falling back at startup

  /** A startup refresh from the cached build `m` towards another build. */
  predicate InStartupRefresh(pc: Pc, m: nat) {
    match pc
    case AwaitManifest(mode) => mode == Warm(m)
    case AwaitZip(job) => Towards(job, m)
    case Extracting(job, _, _) => Towards(job, m)
    case Copying(job, _, _, _) => Towards(job, m)
    case Renaming(job, _, _, _) => Towards(job, m)
    case WritingMeta(job) => Towards(job, m)
    case RenamingMeta(job) => Towards(job, m)
    case Pruning(job) => Towards(job, m)
    case LoadCheck(p, b) => p == Installed(Warm(m)) && b != m
    case LoadSystems(p, b) => p == Installed(Warm(m)) && b != m
    case LoadGates(p, b, _) => p == Installed(Warm(m)) && b != m
    case LoadHulls(p, b, _, _) => p == Installed(Warm(m)) && b != m
    case _ => false
  }

  predicate Towards(job: Job, m: nat) { job.mode == Warm(m) && job.build != m }

  /** One startup refresh: it begins with the manifest and has taken `steps`. */
  ghost predicate IsStartupRefresh(m: nat, run: seq<State>, steps: seq<Step>) {
    && |run| == |steps| + 1 && Inv(run[0]) && run[0].pc == AwaitManifest(Warm(m))
    && (forall i :: 0 <= i < |run| ==> InStartupRefresh(run[i].pc, m))
    && (forall i :: 0 <= i < |steps| ==> Apply(run[i], steps[i]) == Some(run[i + 1]))
  }

  predicate Prunes(step: Step, m: nat) { step.PruneFile? && step.victim == m }

  lemma AllRequired(f: FileName)
    ensures f in FILES
  {
    match f case SolarSystems => case Stargates => case Types => case TypeDogma =>
  }

  /** In a startup refresh only pruning touches the cached build, and nothing brings it back. */
  lemma RefreshStep(s: State, step: Step, m: nat)
    requires InStartupRefresh(s.pc, m) && Apply(s, step).Some?
    ensures FilesPresent(Apply(s, step).value.disk, m) <==> FilesPresent(s.disk, m) && !Prunes(step, m)
  {
    hide CurrentMetadata;
    if IsControl(step) {
      ControlKeepsDisk(s, step);
    } else {
      OtherwiseByPhase(s, step);
      if step.PruneFile? {
        AllRequired(step.name);
      }
    }
  }

  lemma ControlKeepsDisk(s: State, step: Step)
    requires IsControl(step) && Apply(s, step).Some?
    ensures Apply(s, step).value.disk == s.disk
  {
    hide CurrentMetadata;
  }

  /** The cached build is intact exactly as long as no step has pruned from it. */
  lemma {:induction false} IntactIff(m: nat, run: seq<State>, steps: seq<Step>, i: nat)
    requires IsStartupRefresh(m, run, steps) && i < |run|
    ensures FilesPresent(run[i].disk, m) <==> forall k :: 0 <= k < i ==> !Prunes(steps[k], m)
    decreases i
  {
    hide Apply, FilesPresent, InStartupRefresh;
    if i == 0 {
      WarmIsIntact(run[0], m);
    } else {
      IntactIff(m, run, steps, i - 1);
      assert Apply(run[i - 1], steps[i - 1]) == Some(run[i - 1 + 1]);
      RefreshStep(run[i - 1], steps[i - 1], m);
    }
  }

  lemma WarmIsIntact(s: State, m: nat)
    requires Inv(s) && s.pc == AwaitManifest(Warm(m))
    ensures FilesPresent(s.disk, m) && s.live.None?
  {
  }

  /**
   * An error anywhere in a startup refresh turns to the cached build, but the
   * cached build's files are all found exactly when nothing of it was pruned.
   */
  lemma FallbackFindsFilesIff(m: nat, run: seq<State>, steps: seq<Step>)
    requires IsStartupRefresh(m, run, steps) && !run[|steps|].pc.Pruning?
    ensures var t := run[|steps|].(pc := LoadCheck(Cached, m));
            && Apply(run[|steps|], Fail) == Some(t)
            && (Apply(t, FindFiles).Some? <==> forall k :: 0 <= k < |steps| ==> !Prunes(steps[k], m))
  {
    hide FilesPresent;
    IntactIff(m, run, steps, |steps|);
  }

  /** `run` loads the cached build without the process going down, and ends up serving. */
  ghost predicate LoadsTo(parses: nat -> bool, s: State, run: seq<State>) {
    && IsStretch(parses, run) && run[0] == s && run[|run| - 1].pc.Serving?
    && forall k :: 0 <= k < |run| ==> !run[k].pc.Down?
  }

  /** What a load of the cached build has shown so far. */
  ghost predicate CachedProgress(parses: nat -> bool, d: Disk, s: State, m: nat) {
    || (FilesPresent(d, m) && parses(m))
    || (s.disk == d && s.pc == LoadCheck(Cached, m))
    || (s.disk == d && FilesPresent(d, m) &&
        match s.pc
        case LoadSystems(p, b) => p == Cached && b == m
        case LoadGates(p, b, _) => p == Cached && b == m
        case LoadHulls(p, b, _, _) => p == Cached && b == m
        case _ => false)
  }

  lemma ProgressStep(parses: nat -> bool, d: Disk, s: State, s': State, m: nat)
    requires CachedProgress(parses, d, s, m) && NextWith(parses, s, s') && !s'.pc.Down?
    ensures CachedProgress(parses, d, s', m)
  {
    hide FilesPresent, CurrentMetadata;
    var step :| Apply(s, step) == Some(s') && Allowed(parses, s, step);
    if !IsControl(step) {
      OtherwiseByPhase(s, step);
    }
  }

  lemma {:induction false} ProgressAlong(parses: nat -> bool, run: seq<State>, m: nat, k: nat)
    requires IsStretch(parses, run) && run[0].pc == LoadCheck(Cached, m) && k < |run|
    requires forall j :: 0 <= j < |run| ==> !run[j].pc.Down?
    ensures CachedProgress(parses, run[0].disk, run[k], m)
    decreases k
  {
    hide Inv, NextWith, FilesPresent;
    if k > 0 {
      ProgressAlong(parses, run, m, k - 1);
      ProgressStep(parses, run[0].disk, run[k - 1], run[k], m);
    }
  }

  lemma CachedLoad(parses: nat -> bool, s: State, m: nat) returns (run: seq<State>)
    requires Inv(s) && s.pc == LoadCheck(Cached, m) && FilesPresent(s.disk, m) && parses(m)
    ensures LoadsTo(parses, s, run)
  {
    hide FilesPresent, FilesWhole, Inv, Apply, Loaded;
    run := LoadStates(s);
    InvMeansWhole(s);
    LoadApplies(s);
    var steps := [FindFiles, ParseSystems, ParseGates, ParseHulls];
    forall i | 0 < i < |run|
      ensures NextWith(parses, run[i - 1], run[i])
    {
      assert Apply(run[i - 1], steps[i - 1]) == Some(run[i]) && Allowed(parses, run[i - 1], steps[i - 1]);
    }
  }

  /**
   * The fallback brings the service up exactly when nothing of the cached build
   * was pruned before the error and the cached build parses.
   */
  lemma FallbackServesIff(parses: nat -> bool, m: nat, run: seq<State>, steps: seq<Step>)
    requires IsStartupRefresh(m, run, steps) && !run[|steps|].pc.Pruning?
    ensures var t := run[|steps|].(pc := LoadCheck(Cached, m));
            && Apply(run[|steps|], Fail) == Some(t)
            && ((exists load :: LoadsTo(parses, t, load)) <==>
                (forall k :: 0 <= k < |steps| ==> !Prunes(steps[k], m)) && parses(m))
  {
    hide FilesPresent, Inv, Apply, InStartupRefresh, IsStretch, NextWith;
    FallbackFindsFilesIff(m, run, steps);
    IntactIff(m, run, steps, |steps|);
    var t := run[|steps|].(pc := LoadCheck(Cached, m));
    RefreshKeepsInv(m, run, steps, |steps|);
    FailKeepsInv(run[|steps|], t);
    if FilesPresent(t.disk, m) && parses(m) {
      var load := CachedLoad(parses, t, m);
    }
    if load :| LoadsTo(parses, t, load) {
      StretchNotEmpty(parses, load);
      ProgressAlong(parses, load, m, |load| - 1);
    }
  }

  lemma FailKeepsInv(s: State, t: State)
    requires Inv(s) && Apply(s, Fail) == Some(t)
    ensures Inv(t)
  {
    hide Inv, Apply;
    assert Next(s, t);
    StepKeeps(s, t);
  }

  lemma {:induction false} RefreshKeepsInv(m: nat, run: seq<State>, steps: seq<Step>, i: nat)
    requires IsStartupRefresh(m, run, steps) && i < |run|
    ensures Inv(run[i])
    decreases i
  {
    hide Inv, Apply, InStartupRefresh;
    if i > 0 {
      RefreshKeepsInv(m, run, steps, i - 1);
      assert Apply(run[i - 1], steps[i - 1]) == Some(run[i - 1 + 1]);
      assert Next(run[i - 1], run[i]);
      StepKeeps(run[i - 1], run[i]);
    }
  }

  /**
   * A startup that downloads, promotes and prunes, then fails to parse, turns to
   * a cached build that is no longer whole and stops: for any cached build, any
   * other build named, any complete archive and any file pruned.
   */
  lemma StartupFallbackFails(s: State, m: nat, b: nat, entries: seq<ZipEntry>, f: FileName)
    requires Inv(s) && s.pc == AwaitManifest(Warm(m)) && b != m && forall g :: g in FILES ==> Wanted(g) in entries
    ensures var fetch := [ManifestNames(b)] + ([ZipArrives(entries)] + ArchiveSteps(entries) + [FinishExtract]);
            var t := RunSteps(s, fetch + [FinishMeta, RenameMeta, PruneFile(m, f), FinishPrune, Fail]);
            && t.Some? && t.value.pc == LoadCheck(Cached, m)
            && Apply(t.value, FindFiles).None? && Apply(t.value, Fail) == Some(State(t.value.disk, Down, None))
  {
    hide Apply, Inv;
    var zip := [ZipArrives(entries)] + ArchiveSteps(entries) + [FinishExtract];
    var s1 := s.(pc := AwaitZip(Job(Warm(m), b)));
    StartupAsks(s, m, b);
    RunOne(s, ManifestNames(b), zip);
    CompleteArchiveIsPromoted(s1, entries);
    var rest := [FinishMeta, RenameMeta, PruneFile(m, f), FinishPrune, Fail];
    RunStepsConcat(s, [ManifestNames(b)] + zip, rest);
    PrunedFallback(RunSteps(s1, zip).value, m, f);
  }

  lemma StartupAsks(s: State, m: nat, b: nat)
    requires Inv(s) && s.pc == AwaitManifest(Warm(m)) && b != m
    ensures Apply(s, ManifestNames(b)) == Some(s.(pc := AwaitZip(Job(Warm(m), b))))
    ensures Inv(s.(pc := AwaitZip(Job(Warm(m), b))))
  {
  }

  lemma PrunedFallback(s: State, m: nat, f: FileName)
    requires s.pc.WritingMeta? && Towards(s.pc.job, m)
    ensures var t := RunSteps(s, [FinishMeta, RenameMeta, PruneFile(m, f), FinishPrune, Fail]);
            && t.Some? && t.value.pc == LoadCheck(Cached, m)
            && Apply(t.value, FindFiles).None? && Apply(t.value, Fail) == Some(State(t.value.disk, Down, None))
  {
    hide Apply, RunSteps;
    var d := s.disk.(meta := Some(Names(s.pc.job.build)), metaTmp := None);
    PruneThenFail(State(d, Pruning(s.pc.job), s.live), m, f);
    PromoteStarts(s, [PruneFile(m, f), FinishPrune, Fail]);
    assert [FinishMeta, RenameMeta] + [PruneFile(m, f), FinishPrune, Fail] == [FinishMeta, RenameMeta, PruneFile(m, f), FinishPrune, Fail];
  }

  lemma PruneThenFail(s: State, m: nat, f: FileName)
    requires s.pc.Pruning? && Towards(s.pc.job, m)
    ensures var t := s.(disk := s.disk.(files := s.disk.files - {(m, f)}), pc := LoadCheck(Cached, m));
            && RunSteps(s, [PruneFile(m, f), FinishPrune, Fail]) == Some(t)
            && Apply(t, FindFiles).None? && Apply(t, Fail) == Some(State(t.disk, Down, None))
  {
    hide Apply;
    var s1 := s.(disk := s.disk.(files := s.disk.files - {(m, f)}));
    var s2 := s1.(pc := LoadCheck(Installed(Warm(m)), s.pc.job.build));
    PruneSteps(s, m, f);
    RunOne(s2, Fail, []);
    RunOne(s1, FinishPrune, [Fail]);
    RunOne(s, PruneFile(m, f), [FinishPrune, Fail]);
  }

  lemma PruneSteps(s: State, m: nat, f: FileName)
    requires s.pc.Pruning? && Towards(s.pc.job, m)
    ensures var s1 := s.(disk := s.disk.(files := s.disk.files - {(m, f)}));
            var s2 := s1.(pc := LoadCheck(Installed(Warm(m)), s.pc.job.build));
            var t := s1.(pc := LoadCheck(Cached, m));
            && Apply(s, PruneFile(m, f)) == Some(s1) && Apply(s1, FinishPrune) == Some(s2) && Apply(s2, Fail) == Some(t)
            && Apply(t, FindFiles).None? && Apply(t, Fail) == Some(State(t.disk, Down, None))
  {
    AllRequired(f);
  }

  lemma PromoteStarts(s: State, rest: seq<Step>)
    requires s.pc.WritingMeta?
    ensures RunSteps(s, [FinishMeta, RenameMeta] + rest) ==
            RunSteps(State(s.disk.(meta := Some(Names(s.pc.job.build)), metaTmp := None), Pruning(s.pc.job), s.live), rest)
  {
    var s1 := Apply(s, FinishMeta).value;
    RunOne(s1, RenameMeta, rest);
    RunOne(s, FinishMeta, [RenameMeta] + rest);
    assert [FinishMeta] + ([RenameMeta] + rest) == [FinishMeta, RenameMeta] + rest;
  }

  /** Build 1 cached and whole, the process up to asking for the manifest. */
  function WarmExample(): State {
    State(Disk(map[(1, SolarSystems) := Whole(1, SolarSystems), (1, Stargates) := Whole(1, Stargates),
                   (1, Types) := Whole(1, Types), (1, TypeDogma) := Whole(1, TypeDogma)],
               map[], Some(Names(1)), None),
          AwaitManifest(Warm(1)), None)
  }

  /** One such startup, from build 1 to build 2. */
  lemma StartupFallbackExample()
    ensures var archive := [Wanted(SolarSystems), Wanted(Stargates), Wanted(Types), Wanted(TypeDogma)];
            var fetch := [ManifestNames(2)] + ([ZipArrives(archive)] + ArchiveSteps(archive) + [FinishExtract]);
            var t := RunSteps(WarmExample(), fetch + [FinishMeta, RenameMeta, PruneFile(1, Types), FinishPrune, Fail]);
            t.Some? && t.value.pc == LoadCheck(Cached, 1) && Apply(t.value, FindFiles).None?
  {
    hide Apply, ArchiveSteps, RunSteps;
    StartupFallbackFails(WarmExample(), 1, 2, [Wanted(SolarSystems), Wanted(Stargates), Wanted(Types), Wanted(TypeDogma)], Types);
  }
}
