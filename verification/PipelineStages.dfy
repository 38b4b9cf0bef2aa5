/** The incremental stages of the local pipeline driver (scripts/run-pipeline.py, Pipeline.stage and run_target) for a
    target with a package lane of its own. */
module PipelineStages {
  import opened Options

  /** prefix, packages, suite, graphical. */
  const STAGES: nat := 4
  const SUITE: nat := 2
  const GRAPHICAL: nat := 3

  datatype Status = Pass | Fail

  /** The record of a finished stage. `run` numbers the executions of stages; `from` are the runs whose results it
      used. */
  datatype Record = Record(status: Status, run: nat, from: map<nat, nat>)

  /** What is in a result folder: the stage.json of the prefix and the packages, the report of the suite and of the
      graphical test; or what an interrupted removal left of it. */
  datatype Report = Whole(run: nat) | Partial

  /** What stays between invocations: the records, the result folders that outputs() lists, and the artifacts. */
  datatype Disk = Disk(records: map<nat, Record>, folders: map<nat, Report>, artifacts: map<nat, nat>)

  /** The files of outputs(), in the order in which they are removed. */
  datatype Path = Folder(stage: nat) | RecordFile(stage: nat)

  /** Where an invocation is. `made` says which results the running function has written, and from which. The contract
      is written behind the record of the prefix and of the packages. */
  datatype Phase =
    | Idle
    | At(stage: nat)
    | Removing(stage: nat, paths: seq<Path>)
    | Running(stage: nat, run: nat, made: Option<map<nat, nat>>)
    | Contracting(stage: nat)
    | Clearing(stage: nat, paths: seq<Path>)

  /** `blocked`: a stage before did not pass. `upstream`: a stage before ran in this invocation. */
  datatype State = State(disk: Disk, phase: Phase, forced: set<nat>, noGraphical: bool, upstream: bool, blocked: bool,
                         runs: nat)

  /** A target builds its own prefix or not, and has a graphical test or not. */
  datatype Target = Target(prefix: bool, graphical: bool)

  /** One step of the driver: a decision, the removal of a part of a folder or of the rest of one path, or one write. A
      crash is a stop at that point. */
  datatype Event =
    | Begin(forced: set<nat>, noGraphical: bool)
    | Decide(stopping: bool)
    | RemoveSome
    | RemoveNext
    | Wipe
    | Make
    | Return(status: Status, stopping: bool)
    | WriteContract
    | Crash

  const INITIAL := State(Disk(map[], map[], map[]), Idle, {}, false, false, false, 0)

  function Outputs(stage: nat): seq<Path> {
    [Folder(stage), RecordFile(stage)]
  }

  /** The results of this stage and of the stages after it. */
  function OutputsFrom(stage: nat): (r: seq<Path>)
    decreases STAGES - stage
  {
    if stage >= STAGES then [] else Outputs(stage) + OutputsFrom(stage + 1)
  }

  function RemovePath(d: Disk, path: Path): Disk {
    match path
    case Folder(k) => d.(folders := d.folders - {k})
    case RecordFile(k) => d.(records := d.records - {k})
  }

  function After(s: State, stage: nat): State {
    s.(phase := if stage + 1 < STAGES then At(stage + 1) else Idle)
  }

  /** A stage that has a result comes to its end: for the first two their contract is next. */
  function Ends(s: State, stage: nat): State {
    if stage < SUITE then s.(phase := Contracting(stage)) else After(s, stage)
  }

  /** The earlier result is taken when it has a record, nobody asks for another and nothing before it ran. */
  predicate Keeps(s: State, k: nat) {
    k in s.disk.records && k !in s.forced && !s.upstream
  }

  function EnterStage(s: State, k: nat, stopping: bool): State {
    if Keeps(s, k) then Ends(s.(blocked := s.blocked || s.disk.records[k].status != Pass), k)
    else if stopping then After(s.(blocked := true), k)
    else s.(phase := Removing(k, OutputsFrom(k)))
  }

  function NotRun(s: State, k: nat): State {
    s.(phase := Clearing(k, Outputs(k)))
  }

  /** The part of run_target that decides about stage `k`. */
  function DecideAt(t: Target, s: State, k: nat, stopping: bool): State {
    if k == 0 then if t.prefix then EnterStage(s, k, stopping) else After(s, k)
    else if k == GRAPHICAL && !t.graphical then NotRun(s, k)
    else if k == GRAPHICAL && s.noGraphical then After(s, k)
    else if s.blocked then NotRun(s, k)
    else EnterStage(s, k, stopping)
  }

  /** The artifacts of the stages before `k`. */
  function Inputs(artifacts: map<nat, nat>, k: nat): map<nat, nat> {
    map i | i in artifacts && i < k :: artifacts[i]
  }

  predicate Possible(s: State, e: Event) {
    match e
    case Begin(_, _) => s.phase == Idle
    case Decide(_) => s.phase.At?
    case RemoveSome => (s.phase.Removing? || s.phase.Clearing?) && |s.phase.paths| > 0 && s.phase.paths[0].Folder?
    case RemoveNext => (s.phase.Removing? || s.phase.Clearing?) && |s.phase.paths| > 0
    case Wipe => s.phase.Running?
    case Make => s.phase.Running?
    case Return(status, _) => s.phase.Running? && (status == Pass ==> s.phase.made.Some?)
    case WriteContract => s.phase.Contracting?
    case Crash => true
  }

  function Removed(s: State): State
    requires (s.phase.Removing? || s.phase.Clearing?) && |s.phase.paths| > 0
  {
    var disk, rest := RemovePath(s.disk, s.phase.paths[0]), s.phase.paths[1..];
    if |rest| > 0 then s.(disk := disk, phase := s.phase.(paths := rest))
    else if s.phase.Removing? then
      s.(disk := disk, phase := Running(s.phase.stage, s.runs, None), runs := s.runs + 1)
    else After(s.(disk := disk, blocked := true), s.phase.stage)
  }

  function Returned(s: State, status: Status, stopping: bool): State
    requires s.phase.Running?
  {
    var k := s.phase.stage;
    if stopping then After(s.(blocked := true), k)
    else
      var from := if s.phase.made.Some? then s.phase.made.value else Inputs(s.disk.artifacts, k);
      var record := Record(status, s.phase.run, from);
      Ends(s.(disk := s.disk.(records := s.disk.records[k := record]), upstream := true,
              blocked := s.blocked || status != Pass), k)
  }

  /** A part of a folder is gone. */
  function Torn(folders: map<nat, Report>, k: nat): map<nat, Report> {
    if k in folders then folders[k := Partial] else folders
  }

  /** The reports are written by the functions of their stages. */
  function Made(folders: map<nat, Report>, k: nat, run: nat): map<nat, Report> {
    if k >= SUITE then folders[k := Whole(run)] else folders
  }

  function Wiped(folders: map<nat, Report>, k: nat): map<nat, Report> {
    if k >= SUITE then folders - {k} else folders
  }

  function Contracted(s: State): State
    requires s.phase.Contracting?
  {
    var k := s.phase.stage;
    if k !in s.disk.records then After(s, k)
    else After(s.(disk := s.disk.(folders := s.disk.folders[k := Whole(s.disk.records[k].run)])), k)
  }

  function Step(t: Target, s: State, e: Event): State {
    if !Possible(s, e) then s
    else
      match e
      case Begin(forced, noGraphical) => State(s.disk, At(0), forced, noGraphical, false, false, s.runs)
      case Decide(stopping) => DecideAt(t, s, s.phase.stage, stopping)
      case RemoveSome => s.(disk := s.disk.(folders := Torn(s.disk.folders, s.phase.paths[0].stage)))
      case RemoveNext => Removed(s)
      case Wipe =>
        var k := s.phase.stage;
        s.(disk := s.disk.(artifacts := s.disk.artifacts - {k}, folders := Wiped(s.disk.folders, k)),
           phase := s.phase.(made := None))
      case Make =>
        var k := s.phase.stage;
        s.(disk := s.disk.(artifacts := s.disk.artifacts[k := s.phase.run],
                           folders := Made(s.disk.folders, k, s.phase.run)),
           phase := s.phase.(made := Some(Inputs(s.disk.artifacts, k))))
      case Return(status, stopping) => Returned(s, status, stopping)
      case WriteContract => Contracted(s)
      case Crash => s.(phase := Idle)
  }

  /** Any number of invocations, each stopped anywhere. */
  function Run(t: Target, s: State, events: seq<Event>): State
    decreases |events|
  {
    if |events| == 0 then s else Step(t, Run(t, s, events[..|events| - 1]), events[|events| - 1])
  }

  // What holds on the disk at every moment.

  /** Of two records the later one was made from the results that the earlier one is about. */
  ghost predicate Derived(records: map<nat, Record>) {
    forall i, j :: i in records && j in records && i < j ==>
      i in records[j].from && records[j].from[i] == records[i].run
  }

  /** A record of a stage that passed is about the artifacts that are there. */
  ghost predicate Backed(d: Disk) {
    forall i :: i in d.records && d.records[i].status == Pass ==> i in d.artifacts && d.artifacts[i] == d.records[i].run
  }

  /** The stages of the target before `k`. */
  predicate Applies(t: Target, i: nat, k: nat) {
    i < k && (i == 0 ==> t.prefix)
  }

  ghost predicate PassedBefore(t: Target, d: Disk, k: nat) {
    forall i :: Applies(t, i, k) ==> i in d.records && d.records[i].status == Pass
  }

  /** No stage from `k` on has a record. */
  ghost predicate NoneFrom(d: Disk, k: nat) {
    forall j :: j in d.records ==> j < k
  }

  /** What is yet to be removed begins with a file of stage `m`; when it begins with the record, the folder is gone. */
  ghost predicate LeftFrom(d: Disk, m: nat, outputs: seq<Path>, paths: seq<Path>) {
    && m < STAGES && |outputs| > 1 && (paths == outputs || paths == outputs[1..])
    && (paths != outputs ==> m !in d.folders)
    && outputs[0] == Folder(m) && outputs[1] == RecordFile(m)
  }

  /** The stages from `k` up to `m` have no record. */
  ghost predicate NoneBetween(d: Disk, k: nat, m: nat) {
    forall j :: j in d.records ==> j < k || j >= m
  }

  /** The results of stage `k` and after are being removed, and `m` is the stage whose turn it is. */
  ghost predicate RemovalFits(t: Target, d: Disk, k: nat, m: nat, paths: seq<Path>) {
    k <= m && PassedBefore(t, d, k) && LeftFrom(d, m, OutputsFrom(m), paths) && NoneBetween(d, k, m)
  }

  ghost predicate Known(t: Target, d: Disk) {
    forall j :: j in d.records ==> j < STAGES && (j == 0 ==> t.prefix)
  }

  ghost predicate PhaseFits(t: Target, s: State) {
    match s.phase
    case Idle => true
    case At(k) =>
      k < STAGES && (s.blocked || PassedBefore(t, s.disk, k)) && (s.upstream ==> NoneFrom(s.disk, k))
      && (k == 0 ==> !s.blocked && !s.upstream)
    case Removing(k, paths) =>
      |paths| > 0 && (k == 0 ==> t.prefix) && !s.blocked && RemovalFits(t, s.disk, k, paths[0].stage, paths)
    case Running(k, run, made) =>
      k < STAGES && (k == 0 ==> t.prefix) && PassedBefore(t, s.disk, k) && NoneFrom(s.disk, k) && !s.blocked
      && (made.Some? ==> made.value == Inputs(s.disk.artifacts, k)
                         && k in s.disk.artifacts && s.disk.artifacts[k] == run
                         && (k >= SUITE ==> k in s.disk.folders && s.disk.folders[k] == Whole(run)))
    case Contracting(k) =>
      k < SUITE && (k == 0 ==> t.prefix) && k in s.disk.records
      && (s.blocked || PassedBefore(t, s.disk, k + 1)) && (s.upstream ==> NoneFrom(s.disk, k + 1))
    case Clearing(k, paths) =>
      k > 0 && LeftFrom(s.disk, k, Outputs(k), paths) && (s.upstream ==> NoneFrom(s.disk, k))
  }

  ghost predicate Valid(t: Target, s: State) {
    Known(t, s.disk) && Derived(s.disk.records) && Backed(s.disk) && PhaseFits(t, s)
  }

  lemma OutputsFromIs(k: nat)
    requires k < STAGES
    ensures OutputsFrom(k) == Outputs(k) + OutputsFrom(k + 1)
    ensures |OutputsFrom(k)| > 1 && OutputsFrom(k)[0] == Folder(k) && OutputsFrom(k)[1] == RecordFile(k)
    ensures OutputsFrom(k)[1..][1..] == OutputsFrom(k + 1)
    ensures k + 1 < STAGES <==> |OutputsFrom(k + 1)| > 0
    ensures k + 1 < STAGES ==> OutputsFrom(k + 1)[0].stage == k + 1
  {
  }

  lemma {:induction false} OutputsFromAbove(k: nat)
    ensures forall i :: 0 <= i < |OutputsFrom(k)| ==> OutputsFrom(k)[i].stage >= k
    ensures k < STAGES ==> |OutputsFrom(k)| > 0
    decreases STAGES - k
  {
    if k < STAGES {
      OutputsFromAbove(k + 1);
    }
  }

  lemma {:induction false} RecordsAreListed(k: nat)
    ensures forall j :: k <= j < STAGES ==> RecordFile(j) in OutputsFrom(k)
    decreases STAGES - k
  {
    if k < STAGES {
      RecordsAreListed(k + 1);
      assert Outputs(k)[1] == RecordFile(k);
    }
  }

  lemma EnterKeepsValid(t: Target, s: State, k: nat, stopping: bool)
    requires Valid(t, s) && s.phase == At(k) && (k == 0 ==> t.prefix) && !s.blocked
    ensures Valid(t, EnterStage(s, k, stopping))
  {
    hide Derived, Backed;
    OutputsFromIs(k);
  }

  lemma DecideKeepsValid(t: Target, s: State, stopping: bool)
    requires Valid(t, s) && s.phase.At?
    ensures Valid(t, DecideAt(t, s, s.phase.stage, stopping))
  {
    var k := s.phase.stage;
    if Enters(t, s) {
      EnterKeepsValid(t, s, k, stopping);
    }
  }

  /** The stage that comes next is run or kept, and not left out. */
  predicate Enters(t: Target, s: State)
    requires s.phase.At?
  {
    var k := s.phase.stage;
    if k == 0 then t.prefix else !s.blocked && (k == GRAPHICAL ==> t.graphical && !s.noGraphical)
  }

  lemma RemoveKeepsDisk(t: Target, d: Disk, path: Path)
    requires Known(t, d) && Derived(d.records) && Backed(d)
    ensures var d' := RemovePath(d, path); Known(t, d') && Derived(d'.records) && Backed(d')
  {
  }

  /** After the folder of a stage its record is next, and then the folder of the stage after it. */
  lemma LeftAfter(t: Target, d: Disk, k: nat, outputs: seq<Path>, paths: seq<Path>)
    requires |paths| > 0 && LeftFrom(d, k, outputs, paths)
    ensures paths == outputs ==>
      paths[0] == Folder(k) && |paths| > 1 && LeftFrom(RemovePath(d, paths[0]), k, outputs, paths[1..])
      && paths[1..][0] == RecordFile(k) && RemovePath(d, paths[0]).records == d.records
    ensures paths != outputs ==>
      paths[0] == RecordFile(k) && paths[1..] == outputs[1..][1..]
      && RemovePath(d, paths[0]).records == d.records - {k} && RemovePath(d, paths[0]).folders == d.folders
  {
  }

  lemma RemovalGoesOn(t: Target, d: Disk, k: nat, m: nat, paths: seq<Path>)
    requires |paths| > 0 && RemovalFits(t, d, k, m, paths) && Known(t, d)
    ensures var d' := RemovePath(d, paths[0]);
      && (paths == OutputsFrom(m) ==> |paths| > 1 && paths[1] == RecordFile(m) && RemovalFits(t, d', k, m, paths[1..]))
      && (paths != OutputsFrom(m) && m + 1 < STAGES ==>
           |paths| > 1 && paths[1].stage == m + 1 && RemovalFits(t, d', k, m + 1, paths[1..]))
      && (paths != OutputsFrom(m) && m + 1 == STAGES ==> |paths| == 1 && PassedBefore(t, d', k) && NoneFrom(d', k))
  {
    OutputsFromIs(m);
    LeftAfter(t, d, m, OutputsFrom(m), paths);
    if paths != OutputsFrom(m) && m + 1 < STAGES {
      OutputsFromIs(m + 1);
    }
  }

  lemma RemovedKeepsFit(t: Target, s: State)
    requires PhaseFits(t, s) && Known(t, s.disk) && Possible(s, RemoveNext)
    ensures PhaseFits(t, Removed(s))
  {
    var k, paths := s.phase.stage, s.phase.paths;
    if s.phase.Removing? {
      RemovalGoesOn(t, s.disk, k, paths[0].stage, paths);
    } else {
      LeftAfter(t, s.disk, k, Outputs(k), paths);
    }
  }

  lemma RemovedKeepsValid(t: Target, s: State)
    requires Valid(t, s) && Possible(s, RemoveNext)
    ensures Valid(t, Removed(s))
  {
    RemoveKeepsDisk(t, s.disk, s.phase.paths[0]);
    RemovedKeepsFit(t, s);
  }

  /** The new record was made from what the records before it are about. */
  lemma NewRecordIsDerived(t: Target, d: Disk, k: nat, record: Record)
    requires Derived(d.records) && Backed(d) && NoneFrom(d, k) && PassedBefore(t, d, k) && Known(t, d)
    requires record.from == Inputs(d.artifacts, k)
    ensures Derived(d.records[k := record])
  {
    forall i | i in d.records ensures i in record.from && record.from[i] == d.records[i].run {
      assert Applies(t, i, k);
    }
  }

  /** A stage that has run leaves its record behind those of the stages before it. */
  lemma RecordedFits(t: Target, d: Disk, k: nat, record: Record)
    requires PassedBefore(t, d, k) && NoneFrom(d, k) && Known(t, d) && k < STAGES && (k == 0 ==> t.prefix)
    ensures var d' := d.(records := d.records[k := record]);
      && Known(t, d') && NoneFrom(d', k + 1) && (record.status == Pass ==> PassedBefore(t, d', k + 1))
  {
  }

  lemma RecordedIsBacked(d: Disk, k: nat, record: Record)
    requires Backed(d) && (record.status == Pass ==> k in d.artifacts && d.artifacts[k] == record.run)
    ensures Backed(d.(records := d.records[k := record]))
  {
  }

  lemma ReturnedKeepsValid(t: Target, s: State, status: Status, stopping: bool)
    requires Valid(t, s) && Possible(s, Return(status, stopping))
    ensures Valid(t, Returned(s, status, stopping))
  {
    hide Known, Derived, Backed, PassedBefore;
    if !stopping {
      var k := s.phase.stage;
      var record := Record(status, s.phase.run, Inputs(s.disk.artifacts, k));
      NewRecordIsDerived(t, s.disk, k, record);
      RecordedFits(t, s.disk, k, record);
      RecordedIsBacked(s.disk, k, record);
    } else {
      MoreFrom(s.disk, s.phase.stage);
    }
  }

  lemma MoreFrom(d: Disk, k: nat)
    requires NoneFrom(d, k)
    ensures NoneFrom(d, k + 1)
  {
  }

  lemma WorkKeepsValid(t: Target, s: State, e: Event)
    requires Valid(t, s) && Possible(s, e) && (e.Wipe? || e.Make?)
    ensures Valid(t, Step(t, s, e))
  {
    var k := s.phase.stage;
    assert forall i :: i in s.disk.records ==> i < k;
    assert e.Make? ==> Inputs(Step(t, s, e).disk.artifacts, k) == Inputs(s.disk.artifacts, k);
  }

  lemma ContractedKeepsValid(t: Target, s: State)
    requires Valid(t, s) && Possible(s, WriteContract)
    ensures Valid(t, Contracted(s))
  {
  }

  lemma TornKeepsValid(t: Target, s: State)
    requires Valid(t, s) && Possible(s, RemoveSome)
    ensures Valid(t, Step(t, s, RemoveSome))
  {
    var m := s.phase.paths[0].stage;
    OutputsFromIs(m);
    assert Torn(s.disk.folders, m).Keys == s.disk.folders.Keys;
  }

  lemma StepKeepsValid(t: Target, s: State, e: Event)
    requires Valid(t, s)
    ensures Valid(t, Step(t, s, e))
  {
    if Possible(s, e) {
      match e
      case Begin(_, _) =>
      case Decide(stopping) => DecideKeepsValid(t, s, stopping);
      case RemoveSome => TornKeepsValid(t, s);
      case RemoveNext => RemovedKeepsValid(t, s);
      case Wipe => WorkKeepsValid(t, s, e);
      case Make => WorkKeepsValid(t, s, e);
      case Return(status, stopping) => ReturnedKeepsValid(t, s, status, stopping);
      case WriteContract => ContractedKeepsValid(t, s);
      case Crash =>
    }
  }

  lemma {:induction false} RunKeepsValid(t: Target, s: State, events: seq<Event>)
    requires Valid(t, s)
    ensures Valid(t, Run(t, s, events))
    decreases |events|
  {
    if |events| > 0 {
      RunKeepsValid(t, s, events[..|events| - 1]);
      StepKeepsValid(t, Run(t, s, events[..|events| - 1]), events[|events| - 1]);
    }
  }

  // What that means for the results that an invocation takes over.

  /** Over any invocations stopped at any point: an earlier result is kept only if every stage before it passed, with a
      record, and its result was made from exactly the results of those stages that are there now. */
  lemma KeptIsCurrent(t: Target, events: seq<Event>, i: nat)
    requires var s := Run(t, INITIAL, events);
      s.phase.At? && Enters(t, s) && Keeps(s, s.phase.stage) && Applies(t, i, s.phase.stage)
    ensures var s := Run(t, INITIAL, events); var record := s.disk.records[s.phase.stage];
      && i in s.disk.records && s.disk.records[i].status == Pass
      && i in record.from && i in s.disk.artifacts
      && record.from[i] == s.disk.records[i].run == s.disk.artifacts[i]
  {
    RunKeepsValid(t, INITIAL, events);
  }

  /** At every moment, also between two removals: of two records that are there, the later result came from the
      earlier. */
  lemma RecordsAgree(t: Target, events: seq<Event>, i: nat, j: nat)
    requires i in Run(t, INITIAL, events).disk.records && j in Run(t, INITIAL, events).disk.records && i < j
    ensures var d := Run(t, INITIAL, events).disk;
      i in d.records[j].from && d.records[j].from[i] == d.records[i].run
  {
    RunKeepsValid(t, INITIAL, events);
  }

  /** A stage begins to run only when no result of it or of a later stage has a record any more. */
  lemma RunsOnCleanDisk(t: Target, events: seq<Event>, j: nat)
    requires var s := Run(t, INITIAL, events); s.phase.Running? && j >= s.phase.stage
    ensures j !in Run(t, INITIAL, events).disk.records
  {
    RunKeepsValid(t, INITIAL, events);
  }

  // The comment at the removal promises more: a stopped run never leaves a record without the records before it.

  /** Every record comes with the records of the stages before it. */
  ghost predicate NoOrphan(t: Target, d: Disk) {
    forall i, j :: j in d.records && Applies(t, i, j) ==> i in d.records
  }

  ghost predicate LaterThan(d: Disk, k: nat) {
    exists j :: j in d.records && j >= k
  }

  /** A record goes while a later one is there. */
  ghost predicate Overtakes(s: State, e: Event) {
    && Possible(s, e) && e.RemoveNext? && s.phase.paths[0].RecordFile?
    && LaterThan(s.disk, s.phase.paths[0].stage + 1)
  }

  /** A step keeps the promise if and only if it does not remove a record while a later one is there. */
  lemma NoOrphanIsKeptIff(t: Target, s: State, e: Event)
    requires Valid(t, s) && NoOrphan(t, s.disk)
    ensures NoOrphan(t, Step(t, s, e).disk) <==> !Overtakes(s, e)
  {
    if Possible(s, e) {
      match e
      case RemoveNext => RemovalOvertakesIff(t, s);
      case Return(_, _) =>
        var k := s.phase.stage;
        assert forall i :: Applies(t, i, k) ==> i in s.disk.records;
      case _ =>
    }
  }

  lemma RemovalOvertakesIff(t: Target, s: State)
    requires Valid(t, s) && NoOrphan(t, s.disk) && Possible(s, RemoveNext)
    ensures NoOrphan(t, Step(t, s, RemoveNext).disk) <==> !Overtakes(s, RemoveNext)
  {
    var path, d := s.phase.paths[0], s.disk;
    var d' := RemovePath(d, path);
    assert Step(t, s, RemoveNext).disk == d';
    var m := path.stage;
    if path.RecordFile? {
      assert m == 0 ==> t.prefix;
      if j :| j in d.records && j >= m + 1 {
        assert Applies(t, m, j) && j in d'.records && m !in d'.records;
      } else {
        forall i, j | j in d'.records && Applies(t, i, j) ensures i in d'.records {
          assert j < m + 1 && j in d.records;
        }
      }
    }
  }

  // The same for a whole invocation. Until it runs a stage, everything is decided by what it found.

  /** Stage `k` is no stage of the target, or its earlier result is taken over and is a pass. */
  predicate PassesOver(t: Target, s: State, k: nat) {
    (k == 0 && !t.prefix) || (Keeps(s, k) && s.disk.records[k].status == Pass)
  }

  /** The first stage from `k` on that is not passed over. */
  function FirstOpen(t: Target, s: State, k: nat): (b: nat)
    ensures k <= b && forall i :: k <= i < b && i < STAGES ==> PassesOver(t, s, i)
    ensures b < STAGES ==> !PassesOver(t, s, b)
    decreases STAGES - k
  {
    if k >= STAGES || !PassesOver(t, s, k) then k else FirstOpen(t, s, k + 1)
  }

  /** An invocation that began in `start` left records behind a gap: it has run no stage, and it stopped in the removal
      after a record had gone and before a later one had, or after it cleared a stage and before it cleared a later one
      with a record, which --no-graphical never does with the last. */
  ghost predicate LeavesGap(t: Target, start: State, s: State) {
    var b := FirstOpen(t, start, 0);
    && s.runs == start.runs
    && match s.phase
       case Removing(k, paths) => |paths| > 0 && k < paths[0].stage && LaterThan(start.disk, paths[0].stage)
       case Running(_, _, _) => false
       case Contracting(_) => false
       case At(k) => b + 1 < k && LaterThan(start.disk, k)
       case Clearing(k, _) => b + 1 < k && LaterThan(start.disk, k)
       case Idle => t.graphical && s.noGraphical && b + 1 < GRAPHICAL && GRAPHICAL in start.disk.records
  }

  /** The records of the stages from `lo` up to `m` are gone, and no others. */
  ghost predicate Gone(before: Disk, lo: nat, m: nat, d: Disk) {
    forall j :: j in d.records <==> j in before.records && !(lo <= j < m)
  }

  lemma GoneKeepsNoOrphanIff(t: Target, before: Disk, lo: nat, m: nat, d: Disk)
    requires NoOrphan(t, before) && Gone(before, lo, m, d) && (lo == 0 ==> t.prefix)
    ensures NoOrphan(t, d) <==> !(lo < m && LaterThan(before, m))
  {
    if lo < m && LaterThan(before, m) {
      var j :| j in before.records && j >= m;
      assert j in d.records && Applies(t, lo, j) && lo !in d.records;
    } else {
      forall i, j | j in d.records && Applies(t, i, j) ensures i in d.records {
        assert j in before.records && i in before.records;
        assert j < lo || j >= m;
      }
    }
  }

  /** What holds all along an invocation that began in `start` without an orphan. */
  ghost predicate Along(t: Target, start: State, s: State) {
    && s.forced == start.forced && s.noGraphical == start.noGraphical && s.runs >= start.runs
    && if s.runs > start.runs then NoOrphan(t, s.disk) && AfterRun(s) else !s.upstream && BeforeRun(t, start, s)
  }

  /** Once a stage has run there is nothing left to remove. */
  ghost predicate AfterRun(s: State) {
    match s.phase
    case At(k) => NoneFrom(s.disk, k)
    case Removing(k, _) => NoneFrom(s.disk, k)
    case Clearing(k, _) => NoneFrom(s.disk, k)
    case Contracting(k) => NoneFrom(s.disk, k + 1)
    case Running(_, _, _) => true
    case Idle => true
  }

  ghost predicate BeforeRun(t: Target, start: State, s: State) {
    var b := FirstOpen(t, start, 0);
    match s.phase
    case At(k) =>
      if s.blocked then b < k && Gone(start.disk, b + 1, k, s.disk) else k <= b && s.disk.records == start.disk.records
    case Removing(k, paths) =>
      |paths| > 0 && k == b && !Keeps(start, b) && Gone(start.disk, b, paths[0].stage, s.disk)
    case Running(_, _, _) => false
    case Contracting(k) => s.disk.records == start.disk.records && if s.blocked then k == b else k < b
    case Clearing(k, _) =>
      && (k == GRAPHICAL ==> !(t.graphical && s.noGraphical))
      && if s.blocked then b < k && Gone(start.disk, b + 1, k, s.disk)
         else k == GRAPHICAL && k <= b && s.disk.records == start.disk.records
    case Idle => NoOrphan(t, s.disk) <==> !LeavesGap(t, start, s)
  }

  lemma AlongMeans(t: Target, start: State, s: State)
    requires Valid(t, s) && NoOrphan(t, start.disk) && Along(t, start, s)
    ensures NoOrphan(t, s.disk) <==> !LeavesGap(t, start, s)
  {
    if s.runs == start.runs {
      var b := FirstOpen(t, start, 0);
      match s.phase
      case At(k) =>
        if s.blocked {
          GoneKeepsNoOrphanIff(t, start.disk, b + 1, k, s.disk);
        }
      case Removing(k, paths) => GoneKeepsNoOrphanIff(t, start.disk, b, paths[0].stage, s.disk);
      case Running(_, _, _) =>
      case Contracting(_) =>
      case Clearing(k, _) =>
        if s.blocked {
          GoneKeepsNoOrphanIff(t, start.disk, b + 1, k, s.disk);
        }
      case Idle =>
    }
  }

  lemma EnterGoesAlong(t: Target, start: State, s: State, k: nat, stopping: bool)
    requires k < STAGES && s.phase == At(k) && !s.blocked && (k == 0 ==> t.prefix) && !start.upstream
    requires NoOrphan(t, start.disk) && s.runs == start.runs && Along(t, start, s)
    ensures Along(t, start, EnterStage(s, k, stopping))
  {
    OutputsFromIs(k);
    assert Keeps(s, k) <==> Keeps(start, k);
  }

  lemma DecideGoesAlong(t: Target, start: State, s: State, stopping: bool)
    requires Known(t, start.disk) && NoOrphan(t, start.disk) && !start.upstream
    requires PhaseFits(t, s) && s.phase.At? && s.runs == start.runs && Along(t, start, s)
    ensures Along(t, start, DecideAt(t, s, s.phase.stage, stopping))
  {
    var k, b := s.phase.stage, FirstOpen(t, start, 0);
    if Enters(t, s) {
      EnterGoesAlong(t, start, s, k, stopping);
    } else if s.blocked && k == GRAPHICAL {
      GoneKeepsNoOrphanIff(t, start.disk, b + 1, k, s.disk);
    }
  }

  lemma RemovalGoesAlong(t: Target, start: State, s: State)
    requires Known(t, start.disk) && NoOrphan(t, start.disk) && s.phase.Removing? && PhaseFits(t, s) && Known(t, s.disk)
    requires s.runs == start.runs && Along(t, start, s)
    ensures Along(t, start, Removed(s))
  {
    var b, paths := s.phase.stage, s.phase.paths;
    var m, d' := paths[0].stage, RemovePath(s.disk, paths[0]);
    RemovalGoesOn(t, s.disk, b, m, paths);
    LeftAfter(t, s.disk, m, OutputsFrom(m), paths);
    if paths != OutputsFrom(m) {
      assert Gone(start.disk, b, m + 1, d');
      GoneKeepsNoOrphanIff(t, start.disk, b, m + 1, d');
    }
  }

  lemma ClearingGoesAlong(t: Target, start: State, s: State)
    requires Known(t, start.disk) && NoOrphan(t, start.disk) && s.phase.Clearing? && PhaseFits(t, s)
    requires s.runs == start.runs && Along(t, start, s)
    ensures Along(t, start, Removed(s))
  {
    var k, paths := s.phase.stage, s.phase.paths;
    var d' := RemovePath(s.disk, paths[0]);
    LeftAfter(t, s.disk, k, Outputs(k), paths);
    if paths != Outputs(k) {
      var lo := if s.blocked then FirstOpen(t, start, 0) + 1 else k;
      assert Gone(start.disk, lo, k + 1, d');
      GoneKeepsNoOrphanIff(t, start.disk, lo, k + 1, d');
    }
  }

  lemma NothingLeftToRemove(t: Target, s: State)
    requires PhaseFits(t, s) && Known(t, s.disk) && AfterRun(s) && Possible(s, RemoveNext)
    ensures AfterRun(Removed(s))
  {
    var k, paths := s.phase.stage, s.phase.paths;
    assert NoneFrom(RemovePath(s.disk, paths[0]), k);
  }

  lemma RunningGoesAlong(t: Target, s: State, e: Event)
    requires Valid(t, s) && AfterRun(s) && Possible(s, e) && !e.Begin? && !e.Crash?
    ensures AfterRun(Step(t, s, e)) && Step(t, s, e).runs >= s.runs
  {
    match e
    case Decide(stopping) => assert !Keeps(s, s.phase.stage);
    case RemoveNext => NothingLeftToRemove(t, s);
    case RemoveSome =>
    case Wipe =>
    case Make =>
    case Return(_, _) =>
    case WriteContract =>
  }

  lemma NothingOvertaken(s: State, e: Event)
    requires AfterRun(s) && (e.RemoveNext? && Possible(s, e) ==> s.phase.stage <= s.phase.paths[0].stage)
    ensures !Overtakes(s, e)
  {
  }

  lemma ContractGoesAlong(t: Target, start: State, s: State)
    requires NoOrphan(t, start.disk) && s.phase.Contracting? && s.phase.stage < SUITE
    requires s.runs == start.runs && Along(t, start, s)
    ensures Along(t, start, Contracted(s))
  {
  }

  lemma RanGoesAlong(t: Target, start: State, s: State, e: Event)
    requires Valid(t, s) && s.runs > start.runs && Along(t, start, s) && Possible(s, e) && !e.Begin? && !e.Crash?
    ensures Along(t, start, Step(t, s, e))
  {
    hide Derived, Backed, BeforeRun;
    RunningGoesAlong(t, s, e);
    NothingOvertaken(s, e);
    NoOrphanIsKeptIff(t, s, e);
  }

  lemma TornGoesAlong(t: Target, start: State, s: State)
    requires s.runs == start.runs && Along(t, start, s) && Possible(s, RemoveSome)
    ensures Along(t, start, Step(t, s, RemoveSome))
  {
  }

  lemma StepGoesAlong(t: Target, start: State, s: State, e: Event)
    requires Valid(t, start) && NoOrphan(t, start.disk) && !start.upstream
    requires Valid(t, s) && Along(t, start, s) && !e.Begin? && !e.Crash?
    ensures Along(t, start, Step(t, s, e))
  {
    hide Derived, Backed, NoOrphan, Known, AfterRun, Gone;
    if Possible(s, e) {
      if s.runs > start.runs {
        RanGoesAlong(t, start, s, e);
      } else {
        match e
        case Decide(stopping) => DecideGoesAlong(t, start, s, stopping);
        case RemoveNext =>
          if s.phase.Removing? {
            RemovalGoesAlong(t, start, s);
          } else {
            ClearingGoesAlong(t, start, s);
          }
        case RemoveSome => TornGoesAlong(t, start, s);
        case WriteContract => ContractGoesAlong(t, start, s);
        case Wipe => assert false;
        case Make => assert false;
        case Return(_, _) => assert false;
      }
    }
  }

  /** The events of one invocation, behind its beginning and before it is stopped. */
  ghost predicate Within(events: seq<Event>) {
    forall e :: e in events ==> !e.Begin? && !e.Crash?
  }

  lemma {:induction false} RunGoesAlong(t: Target, start: State, events: seq<Event>)
    requires Valid(t, start) && NoOrphan(t, start.disk) && Along(t, start, start) && !start.upstream && Within(events)
    ensures Along(t, start, Run(t, start, events))
    decreases |events|
  {
    if |events| > 0 {
      var most := events[..|events| - 1];
      RunGoesAlong(t, start, most);
      RunKeepsValid(t, start, most);
      StepGoesAlong(t, start, Run(t, start, most), events[|events| - 1]);
    }
  }

  /** An invocation that finds no orphan leaves one, wherever it ends or is stopped, if and only if it leaves a gap. */
  lemma InvocationLeavesOrphanIff(t: Target, s: State, forced: set<nat>, noGraphical: bool, events: seq<Event>)
    requires Valid(t, s) && s.phase.Idle? && NoOrphan(t, s.disk) && Within(events)
    ensures var start := Step(t, s, Begin(forced, noGraphical)); var end := Run(t, start, events);
      && (NoOrphan(t, end.disk) <==> !LeavesGap(t, start, end))
      && Step(t, end, Crash).disk == end.disk
  {
    var start := Step(t, s, Begin(forced, noGraphical));
    StepKeepsValid(t, s, Begin(forced, noGraphical));
    RunGoesAlong(t, start, events);
    RunKeepsValid(t, start, events);
    AlongMeans(t, start, Run(t, start, events));
  }

  // Before the invocation begins: can it leave an orphan at all?

  /** With a failed result that is taken over two later records are at risk, and else one. */
  ghost predicate AtRisk(t: Target, start: State) {
    var b := FirstOpen(t, start, 0);
    if Keeps(start, b) then LaterThan(start.disk, b + 2) else LaterThan(start.disk, b + 1)
  }

  /** The beginning of an invocation that finds the disk of a state between two of them. */
  predicate Begins(start: State) {
    start.phase == At(0) && !start.blocked && !start.upstream
  }

  /** A kept result is taken over, and with the first two goes its contract. */
  function PassOver(t: Target, k: nat): (events: seq<Event>)
    ensures Within(events)
  {
    if k < SUITE && (k == 0 ==> t.prefix) then [Decide(false), WriteContract] else [Decide(false)]
  }

  function PassOverAll(t: Target, k: nat): (events: seq<Event>)
    ensures Within(events)
  {
    if k == 0 then [] else PassOverAll(t, k - 1) + PassOver(t, k - 1)
  }

  /** As `start` but for the contracts that were written again. */
  predicate IsAt(start: State, k: nat, s: State) {
    s == start.(phase := At(k), disk := start.disk.(folders := s.disk.folders))
  }

  lemma PassOverIs(t: Target, s: State, k: nat)
    requires s.phase == At(k) && k + 1 < STAGES && !s.blocked && !s.upstream
    requires PassesOver(t, s, k) || (Keeps(s, k) && k < SUITE && (k == 0 ==> t.prefix))
    ensures IsAt(s.(blocked := !PassesOver(t, s, k)), k + 1, Run(t, s, PassOver(t, k)))
  {
    assert [Decide(false)][..0] == [] && [Decide(false), WriteContract][..1] == [Decide(false)];
    assert Run(t, s, [Decide(false)]) == Step(t, s, Decide(false));
  }

  lemma {:induction false} PassOverAllIs(t: Target, start: State, k: nat)
    requires Begins(start) && k <= FirstOpen(t, start, 0) && k < STAGES
    ensures IsAt(start, k, Run(t, start, PassOverAll(t, k)))
  {
    hide Step, FirstOpen;
    if k > 0 {
      PassOverAllIs(t, start, k - 1);
      RunConcat(t, start, PassOverAll(t, k - 1), PassOver(t, k - 1));
      var s := Run(t, start, PassOverAll(t, k - 1));
      assert PassesOver(t, start, k - 1) && PassesOver(t, s, k - 1);
      PassOverIs(t, s, k - 1);
    }
  }

  lemma RemovesFirst(t: Target, s: State, k: nat)
    requires s.phase == At(k) && Enters(t, s) && !Keeps(s, k) && k + 1 < STAGES
    ensures var d := Disk(s.disk.records - {k}, s.disk.folders - {k}, s.disk.artifacts);
      Run(t, s, [Decide(false), RemoveNext, RemoveNext]) == s.(disk := d, phase := Removing(k, OutputsFrom(k + 1)))
  {
    Unroll(t, s, Decide(false), RemoveNext, RemoveNext);
    OutputsFromIs(k);
  }

  /** The removal of the results of the first stage that runs is stopped behind its record. */
  lemma RemovalLeavesGap(t: Target, start: State) returns (events: seq<Event>)
    requires Begins(start) && Known(t, start.disk)
    requires !Keeps(start, FirstOpen(t, start, 0)) && LaterThan(start.disk, FirstOpen(t, start, 0) + 1)
    ensures Within(events) && LeavesGap(t, start, Run(t, start, events))
  {
    hide Step, Run, FirstOpen;
    var b, last := FirstOpen(t, start, 0), [Decide(false), RemoveNext, RemoveNext];
    PassOverAllIs(t, start, b);
    events := PassOverAll(t, b) + last;
    RunConcat(t, start, PassOverAll(t, b), last);
    RemovesFirst(t, Run(t, start, PassOverAll(t, b)), b);
    OutputsFromIs(b + 1);
  }

  lemma ClearsFirst(t: Target, s: State, k: nat)
    requires s.phase == At(k) && s.blocked && 0 < k < GRAPHICAL
    ensures var s' := Run(t, s, [Decide(false), RemoveNext, RemoveNext]);
      s'.phase == At(k + 1) && s'.runs == s.runs
  {
    Unroll(t, s, Decide(false), RemoveNext, RemoveNext);
    assert Outputs(k)[1..] == [RecordFile(k)];
  }

  /** A failed result is taken over, and the invocation is stopped when the stage behind it is cleared. */
  lemma ClearingLeavesGap(t: Target, start: State) returns (events: seq<Event>)
    requires Begins(start) && Known(t, start.disk)
    requires Keeps(start, FirstOpen(t, start, 0)) && LaterThan(start.disk, FirstOpen(t, start, 0) + 2)
    ensures Within(events) && LeavesGap(t, start, Run(t, start, events))
  {
    hide Step, Run, FirstOpen;
    var b, last := FirstOpen(t, start, 0), [Decide(false), RemoveNext, RemoveNext];
    PassOverAllIs(t, start, b);
    var s := Run(t, start, PassOverAll(t, b));
    PassOverIs(t, s, b);
    RunConcat(t, start, PassOverAll(t, b), PassOver(t, b));
    ClearsFirst(t, Run(t, s, PassOver(t, b)), b + 1);
    RunConcat(t, start, PassOverAll(t, b) + PassOver(t, b), last);
    events := PassOverAll(t, b) + PassOver(t, b) + last;
  }

  /** An invocation can be stopped with an orphan if and only if it finds a later record at risk. */
  lemma CanLeaveOrphanIff(t: Target, s: State, forced: set<nat>, noGraphical: bool)
    requires Valid(t, s) && s.phase.Idle? && NoOrphan(t, s.disk)
    ensures var start := Step(t, s, Begin(forced, noGraphical));
      (exists events :: Within(events) && !NoOrphan(t, Run(t, start, events).disk)) <==> AtRisk(t, start)
  {
    var start := Step(t, s, Begin(forced, noGraphical));
    if AtRisk(t, start) {
      var events: seq<Event>;
      if Keeps(start, FirstOpen(t, start, 0)) {
        events := ClearingLeavesGap(t, start);
      } else {
        events := RemovalLeavesGap(t, start);
      }
      InvocationLeavesOrphanIff(t, s, forced, noGraphical, events);
    }
    if events :| Within(events) && !NoOrphan(t, Run(t, start, events).disk) {
      InvocationLeavesOrphanIff(t, s, forced, noGraphical, events);
      StepKeepsValid(t, s, Begin(forced, noGraphical));
      RunGoesAlong(t, start, events);
      GapIsAtRisk(t, start, Run(t, start, events));
    }
  }

  lemma GapIsAtRisk(t: Target, start: State, s: State)
    requires Along(t, start, s) && LeavesGap(t, start, s)
    ensures AtRisk(t, start)
  {
  }

  /** An invocation with the graphical stage that comes to its end keeps the promise. */
  lemma CompletedKeepsPromise(t: Target, s: State, forced: set<nat>, events: seq<Event>)
    requires Valid(t, s) && s.phase.Idle? && NoOrphan(t, s.disk) && Within(events)
    requires Run(t, Step(t, s, Begin(forced, false)), events).phase.Idle?
    ensures NoOrphan(t, Run(t, Step(t, s, Begin(forced, false)), events).disk)
  {
    var start := Step(t, s, Begin(forced, false));
    InvocationLeavesOrphanIff(t, s, forced, false, events);
    StepKeepsValid(t, s, Begin(forced, false));
    RunGoesAlong(t, start, events);
  }

  /** No removal is interrupted here and nothing crashes: the stop is noticed before the first stage, the two stages
      behind it are cleared, and --no-graphical passes over the record of the last. */
  lemma NoGraphicalLeavesOrphan(s: State)
    requires s.phase.Idle? && s.disk.records.Keys == {0, 1, 2, 3}
    ensures var s' := Run(Target(true, true), s, [Begin({0}, true), Decide(true), Decide(false), RemoveNext, RemoveNext,
                                                  Decide(false), RemoveNext, RemoveNext, Decide(false)]);
      s'.phase.Idle? && s'.disk.records.Keys == {0, 3}
  {
    var t := Target(true, true);
    var a, b, c := [Begin({0}, true), Decide(true), Decide(false)], [RemoveNext, RemoveNext, Decide(false)],
                   [RemoveNext, RemoveNext, Decide(false)];
    Unroll(t, s, a[0], a[1], a[2]);
    var s1 := Run(t, s, a);
    ClearsNext(t, s1, 1);
    var s2 := Run(t, s1, b);
    ClearsNext(t, s2, 2);
    RunConcat(t, s, a, b);
    RunConcat(t, s, a + b, c);
    assert a + b + c == [Begin({0}, true), Decide(true), Decide(false), RemoveNext, RemoveNext, Decide(false),
                         RemoveNext, RemoveNext, Decide(false)];
    assert {0, 1, 2, 3} - {1} - {2} == {0, 3};
  }

  /** A stage is cleared and the next one decided on. */
  lemma ClearsNext(t: Target, s: State, k: nat)
    requires s.phase == Clearing(k, Outputs(k)) && k + 1 < STAGES
    ensures var s' := Run(t, s, [RemoveNext, RemoveNext, Decide(false)]);
      var d := Disk(s.disk.records - {k}, s.disk.folders - {k}, s.disk.artifacts);
      s' == DecideAt(t, s.(disk := d, phase := At(k + 1), blocked := true), k + 1, false)
  {
    Unroll(t, s, RemoveNext, RemoveNext, Decide(false));
    assert Outputs(k)[1..] == [RecordFile(k)];
  }

  /** In particular a run stopped right after the first paths are gone leaves every later record that was there. */
  lemma StopDuringRemoval(t: Target, s: State, j: nat)
    requires s.phase.Removing? && s.phase.paths == OutputsFrom(s.phase.stage) && s.phase.stage < j < STAGES
    requires s.phase.stage in s.disk.records && j in s.disk.records
    ensures var s' := Run(t, s, [RemoveNext, RemoveNext, Crash]);
      s'.phase == Idle && s.phase.stage !in s'.disk.records && j in s'.disk.records
  {
    var k := s.phase.stage;
    var paths := s.phase.paths;
    assert paths == Outputs(k) + OutputsFrom(k + 1);
    OutputsFromIs(k + 1);
    var s1 := Step(t, s, RemoveNext);
    var s2 := Step(t, s1, RemoveNext);
    assert paths[0] == Folder(k) && paths[1..][0] == RecordFile(k);
    assert |paths| > 2;
    Unroll(t, s, RemoveNext, RemoveNext, Crash);
  }

  lemma Unroll(t: Target, s: State, a: Event, b: Event, c: Event)
    ensures Run(t, s, [a, b, c]) == Step(t, Step(t, Step(t, s, a), b), c)
  {
    assert [a, b, c][..2] == [a, b] && [a, b][..1] == [a] && [a][..0] == [];
    assert Run(t, s, [a]) == Step(t, s, a);
    assert Run(t, s, [a, b]) == Step(t, Step(t, s, a), b);
  }

  // The result folders, which go right before their records, and come right behind them for the first two stages.

  predicate Passed(d: Disk, k: nat) {
    k in d.records && d.records[k].status == Pass
  }

  predicate HasFolder(d: Disk, k: nat) {
    Passed(d, k) ==> k in d.folders && d.folders[k] == Whole(d.records[k].run)
  }

  /** The outputs of stage `k` are being removed, or its contract is written next. */
  predicate InFlux(s: State, k: nat) {
    (Possible(s, RemoveNext) && s.phase.paths[0].stage == k) || s.phase == Contracting(k)
  }

  ghost predicate HaveFolders(s: State) {
    forall k :: k in s.disk.records ==> HasFolder(s.disk, k) || InFlux(s, k)
  }

  /** A stop at this point loses a folder: the stage passed, and the removal of its folder has begun or is over, or its
      contract is not written yet. */
  predicate LosesFolder(s: State) {
    match s.phase
    case Contracting(k) => Passed(s.disk, k)
      && (k in s.disk.folders ==> s.disk.folders[k] != Whole(s.disk.records[k].run))
    case Removing(_, paths) => |paths| > 0 && Passed(s.disk, paths[0].stage) && BegunToRemove(s.disk, paths[0])
    case Clearing(_, paths) => |paths| > 0 && Passed(s.disk, paths[0].stage) && BegunToRemove(s.disk, paths[0])
    case _ => false
  }

  predicate BegunToRemove(d: Disk, path: Path)
    requires Passed(d, path.stage)
  {
    path.RecordFile? || path.stage !in d.folders || d.folders[path.stage] != Whole(d.records[path.stage].run)
  }

  /** A step keeps the folders of the passed records, but for one in flux, if and only if it is no stop that loses
      one. */
  lemma StepKeepsFoldersIff(t: Target, s: State, e: Event)
    requires Valid(t, s) && HaveFolders(s)
    ensures HaveFolders(Step(t, s, e)) <==> !(e.Crash? && LosesFolder(s))
  {
    hide Derived, Backed, OutputsFrom;
    if Possible(s, e) {
      match e
      case RemoveNext => RemovalKeepsFolders(t, s);
      case Crash => CrashKeepsFoldersIff(t, s);
      case Decide(_) => assert Step(t, s, e).disk == s.disk;
      case _ =>
    }
  }

  lemma RemovalKeepsFolders(t: Target, s: State)
    requires Valid(t, s) && HaveFolders(s) && Possible(s, RemoveNext)
    ensures HaveFolders(Step(t, s, RemoveNext))
  {
    hide Derived, Backed;
    var s', path := Removed(s), s.phase.paths[0];
    OutputsFromIs(path.stage);
    forall k | k in s'.disk.records ensures HasFolder(s'.disk, k) || InFlux(s', k) {
      assert k == path.stage || HasFolder(s.disk, k);
    }
  }

  lemma CrashKeepsFoldersIff(t: Target, s: State)
    requires Valid(t, s) && HaveFolders(s)
    ensures HaveFolders(s.(phase := Idle)) <==> !LosesFolder(s)
  {
    if Possible(s, RemoveNext) {
      var k := s.phase.paths[0].stage;
      OutputsFromIs(k);
      assert LosesFolder(s) ==> k in s.disk.records && !HasFolder(s.disk, k);
    }
  }

  /** No stop loses a folder. */
  ghost predicate Tidy(t: Target, s: State, events: seq<Event>) {
    forall i :: 0 <= i < |events| && events[i].Crash? ==> !LosesFolder(Run(t, s, events[..i]))
  }

  lemma {:induction false} RunKeepsFolders(t: Target, s: State, events: seq<Event>)
    requires Valid(t, s) && HaveFolders(s) && Tidy(t, s, events)
    ensures HaveFolders(Run(t, s, events))
    decreases |events|
  {
    hide Valid, HaveFolders, LosesFolder;
    if |events| > 0 {
      var n := |events| - 1;
      forall i | 0 <= i < n && events[..n][i].Crash? ensures !LosesFolder(Run(t, s, events[..n][..i])) {
        assert events[..n][..i] == events[..i];
      }
      RunKeepsFolders(t, s, events[..n]);
      RunKeepsValid(t, s, events[..n]);
      StepKeepsFoldersIff(t, Run(t, s, events[..n]), events[n]);
    }
  }

  /** A result that is taken over, and passed, still has the folder of that run, if no stop loses one. */
  lemma KeptHasFolder(t: Target, events: seq<Event>)
    requires Tidy(t, INITIAL, events)
    requires var s := Run(t, INITIAL, events); s.phase.At? && Enters(t, s) && Keeps(s, s.phase.stage)
    ensures var s := Run(t, INITIAL, events); HasFolder(s.disk, s.phase.stage)
  {
    RunKeepsFolders(t, INITIAL, events);
  }

  /** For the prefix and the packages a lost one comes back with the next invocation that takes the result over:
      whatever stops there were, their contract is whole when the stage behind them is decided on. */
  lemma KeptContractIsWhole(t: Target, s: State)
    requires Valid(t, s) && s.phase.At? && s.phase.stage < SUITE && Enters(t, s) && Keeps(s, s.phase.stage)
    ensures var s' := Run(t, s, [Decide(false), WriteContract]);
      s'.phase == At(s.phase.stage + 1) && HasFolder(s'.disk, s.phase.stage)
      && s'.disk.records == s.disk.records
  {
    assert [Decide(false)][..0] == [] && [Decide(false), WriteContract][..1] == [Decide(false)];
    assert Run(t, s, [Decide(false)]) == Step(t, s, Decide(false));
  }

  // Such a run exists.

  ghost predicate Reaches(t: Target, s: State, s': State) {
    exists events :: Run(t, s, events) == s'
  }

  lemma {:induction false} RunConcat(t: Target, s: State, a: seq<Event>, b: seq<Event>)
    ensures Run(t, s, a + b) == Run(t, Run(t, s, a), b)
    decreases |b|
  {
    if |b| == 0 {
      assert a + b == a;
    } else {
      RunConcat(t, s, a, b[..|b| - 1]);
      assert (a + b)[..|a + b| - 1] == a + b[..|b| - 1];
    }
  }

  lemma ThenReaches(t: Target, s: State, s': State, s'': State)
    requires Reaches(t, s, s') && Reaches(t, s', s'')
    ensures Reaches(t, s, s'')
  {
    var a, b :| Run(t, s, a) == s' && Run(t, s', b) == s'';
    RunConcat(t, s, a, b);
  }

  lemma StepReaches(t: Target, s: State, s': State, e: Event)
    requires Reaches(t, s, s')
    ensures Reaches(t, s, Step(t, s', e))
  {
    assert Run(t, s', [e]) == Step(t, s', e) by {
      assert [e][..0] == [];
    }
    ThenReaches(t, s, s', Step(t, s', e));
  }

  /** Removing what is not there goes on to the run of the stage. */
  lemma {:induction false} RemovalReaches(t: Target, s: State, s': State)
    requires Reaches(t, s, s') && s'.phase.Removing? && |s'.phase.paths| > 0
    requires forall i :: 0 <= i < |s'.phase.paths| ==>
      s'.phase.paths[i].stage !in s'.disk.records && s'.phase.paths[i].stage !in s'.disk.folders
    ensures Reaches(t, s, s'.(phase := Running(s'.phase.stage, s'.runs, None), runs := s'.runs + 1))
    decreases |s'.phase.paths|
  {
    StepReaches(t, s, s', RemoveNext);
    var d := s'.disk;
    assert s'.phase.paths[0].stage !in d.records;
    assert d.records - {s'.phase.paths[0].stage} == d.records && d.folders - {s'.phase.paths[0].stage} == d.folders;
    if |s'.phase.paths| > 1 {
      RemovalReaches(t, s, Step(t, s', RemoveNext));
    }
  }

  /** A stage that has no record yet, nor any after it, runs and passes. */
  lemma StageReaches(t: Target, s: State, s': State)
    requires Reaches(t, s, s') && s'.phase.At? && Enters(t, s') && s'.phase.stage < SUITE
    requires forall j :: j >= s'.phase.stage ==> j !in s'.disk.records && j !in s'.disk.folders
    ensures var k := s'.phase.stage; var d := s'.disk;
      Reaches(t, s, After(s'.(disk := Disk(d.records[k := Record(Pass, s'.runs, Inputs(d.artifacts, k))],
                                           d.folders[k := Whole(s'.runs)], d.artifacts[k := s'.runs]),
                              upstream := true, runs := s'.runs + 1), k))
  {
    var k := s'.phase.stage;
    StepReaches(t, s, s', Decide(false));
    var s1 := Step(t, s', Decide(false));
    OutputsFromAbove(k);
    RemovalReaches(t, s, s1);
    var s2 := s1.(phase := Running(k, s1.runs, None), runs := s1.runs + 1);
    StepReaches(t, s, s2, Make);
    var s3 := Step(t, s2, Make);
    StepReaches(t, s, s3, Return(Pass, false));
    StepReaches(t, s, Step(t, s3, Return(Pass, false)), WriteContract);
  }

  /** The first two stages have passed, and the run was stopped. */
  function TwoPassed(): State {
    var records := map[0 := Record(Pass, 0, Inputs(map[], 0)), 1 := Record(Pass, 1, Inputs(map[0 := 0], 1))];
    State(Disk(records, map[0 := Whole(0), 1 := Whole(1)], map[0 := 0, 1 := 1]), Idle, {}, false, true, false, 2)
  }

  lemma TwoPassedIsReached(t: Target)
    requires t == Target(true, true)
    ensures Reaches(t, INITIAL, TwoPassed())
  {
    assert Run(t, INITIAL, []) == INITIAL;
    StepReaches(t, INITIAL, INITIAL, Begin({}, false));
    var s := Step(t, INITIAL, Begin({}, false));
    StageReaches(t, INITIAL, s);
    var d := Disk(map[0 := Record(Pass, 0, Inputs(map[], 0))], map[0 := Whole(0)], map[0 := 0]);
    s := State(d, At(1), {}, false, true, false, 1);
    StageReaches(t, INITIAL, s);
    var records := d.records[1 := Record(Pass, 1, Inputs(d.artifacts, 1))];
    s := State(Disk(records, d.folders[1 := Whole(1)], d.artifacts[1 := 1]), At(2), {}, false, true, false, 2);
    StepReaches(t, INITIAL, s, Crash);
  }

  /** A record without the record of the stage that it came from, left by a stop. */
  predicate Orphaned(s: State) {
    s.phase == Idle && 0 !in s.disk.records && 1 in s.disk.records && s.disk.records[1].status == Pass
  }

  lemma LaterWithoutEarlier()
    ensures exists s :: Reaches(Target(true, true), INITIAL, s) && Orphaned(s)
  {
    var t := Target(true, true);
    var s := TwoPassed();
    TwoPassedIsReached(t);
    StepReaches(t, INITIAL, s, Begin({0}, false));
    s := Step(t, s, Begin({0}, false));
    StepReaches(t, INITIAL, s, Decide(false));
    s := Step(t, s, Decide(false));
    StopDuringRemoval(t, s, 1);
    OnlyOneGoes(t, s);
    var s' := Run(t, s, [RemoveNext, RemoveNext, Crash]);
    ThenReaches(t, INITIAL, s, s');
    assert Orphaned(s');
  }

  lemma OnlyOneGoes(t: Target, s: State)
    requires s.phase.Removing? && s.phase.stage == 0 && s.phase.paths == OutputsFrom(0) && 1 in s.disk.records
    ensures var s' := Run(t, s, [RemoveNext, RemoveNext, Crash]);
      1 in s'.disk.records && s'.disk.records[1] == s.disk.records[1]
  {
    var paths := s.phase.paths;
    assert paths == Outputs(0) + OutputsFrom(1);
    OutputsFromIs(1);
    assert paths[0] == Folder(0) && paths[1..][0] == RecordFile(0) && |paths| > 2;
    Unroll(t, s, RemoveNext, RemoveNext, Crash);
  }

  // The driver itself: every change of the disk is one step of the machine above.

  /** What the function of a stage does, and whether a stop is noticed before it or after it. */
  datatype Work = Work(stopBefore: bool, writes: seq<bool>, status: Status, stopAfter: bool)

  predicate CanPass(work: Work) {
    work.status == Pass ==> |work.writes| > 0 && work.writes[|work.writes| - 1]
  }

  // What a whole invocation that is not killed makes of the records: which stages it keeps, and which it runs.

  /** The stages that this invocation has to do with. */
  predicate Wanted(t: Target, noGraphical: bool, k: nat) {
    (k == 0 ==> t.prefix) && (k == GRAPHICAL ==> t.graphical && !noGraphical)
  }

  datatype Choice = Choice(t: Target, before: map<nat, Record>, forced: set<nat>, noGraphical: bool, works: seq<Work>,
                           kept: set<nat>, ran: set<nat>)

  /** In this invocation the stage passed. */
  predicate PassedNow(c: Choice, k: nat) {
    || (k in c.kept && k in c.before && c.before[k].status == Pass)
    || (k in c.ran && k < |c.works| && c.works[k].status == Pass)
  }

  ghost predicate Reached(c: Choice, k: nat) {
    Wanted(c.t, c.noGraphical, k) && forall j :: 0 <= j < k && Wanted(c.t, c.noGraphical, j) ==> PassedNow(c, j)
  }

  ghost predicate ChosenAt(c: Choice, records: map<nat, Record>, k: nat)
    requires k < |c.works|
  {
    && (k in c.kept <==>
         Reached(c, k) && k in c.before && k !in c.forced && forall j :: j in c.ran ==> k <= j)
    && (k in c.ran <==> Reached(c, k) && k !in c.kept && !c.works[k].stopBefore && !c.works[k].stopAfter)
    && (k in c.kept ==> k in records && records[k] == c.before[k])
    && (k in c.ran ==> k in records && records[k].status == c.works[k].status)
    && (k in records && k !in c.ran ==> k in c.before && records[k] == c.before[k])
    && (Wanted(c.t, c.noGraphical, k) && !Reached(c, k) ==> k !in records)
    && (k == GRAPHICAL && !c.t.graphical ==> k !in records)
    && (Reached(c, k) && k !in c.kept && !c.works[k].stopBefore && c.works[k].stopAfter ==> k !in records)
  }

  /** A stage is kept if and only if every stage before it passed, it has a record, nobody asked for a new result, and
      no stage before it ran; it runs if and only if they passed, it is not kept, and no stop is noticed. Its record is
      the earlier one or the new one, and a stage behind one that did not pass has none. */
  ghost predicate Chosen(c: Choice, records: map<nat, Record>, n: nat)
    requires n <= |c.works|
  {
    && (forall k :: k in c.kept ==> k < n) && (forall k :: k in c.ran ==> k < n)
    && forall k :: 0 <= k < n ==> ChosenAt(c, records, k)
  }

  /** Of the stages, `records` has what `before` has of those before `k`. */
  ghost predicate OnlyBefore(before: map<nat, Record>, records: map<nat, Record>, k: nat) {
    forall j: nat :: j < STAGES ==>
      (j in records <==> j in before && j < k) && (j in records ==> records[j] == before[j])
  }

  /** The records from stage `k` on are being removed, and those that are there still are among `paths`. */
  ghost predicate Drains(before: map<nat, Record>, records: map<nat, Record>, k: nat, paths: seq<Path>) {
    && (forall i :: 0 <= i < |paths| ==> paths[i].stage >= k)
    && (forall j :: j in records ==> j in before && records[j] == before[j])
    && (forall j :: j in before && j < k ==> j in records)
    && (forall j: nat :: k <= j < STAGES && j in records ==> RecordFile(j) in paths)
  }

  lemma DrainsFirst(before: map<nat, Record>, k: nat)
    ensures Drains(before, before, k, OutputsFrom(k))
  {
    OutputsFromAbove(k);
    RecordsAreListed(k);
  }

  lemma DrainsNext(before: map<nat, Record>, d: Disk, k: nat, paths: seq<Path>)
    requires Drains(before, d.records, k, paths) && |paths| > 0
    ensures Drains(before, RemovePath(d, paths[0]).records, k, paths[1..])
  {
    var records := RemovePath(d, paths[0]).records;
    forall j: nat | k <= j < STAGES && j in records ensures RecordFile(j) in paths[1..] {
      assert RecordFile(j) in paths && RecordFile(j) != paths[0];
    }
  }

  lemma DrainsLast(before: map<nat, Record>, records: map<nat, Record>, k: nat)
    requires Drains(before, records, k, [])
    ensures OnlyBefore(before, records, k)
  {
  }

  /** What the decision about stage `k` and its run come to. */
  ghost predicate StageIs(before: map<nat, Record>, records: map<nat, Record>, k: nat, upstream: bool, work: Work,
                          forced: set<nat>, status: Option<Status>, ran: bool) {
    if k in before && k !in forced && !upstream then
      status == Some(before[k].status) && !ran && records == before
    else if work.stopBefore then
      status == None && !ran && records == before
    else if work.stopAfter then
      status == None && !ran && OnlyBefore(before, records, k)
    else
      && status == Some(work.status) && ran && k in records && records[k].status == work.status
      && OnlyBefore(before, records - {k}, k)
  }

  /** The records up to stage `k` are as they were. */
  ghost predicate Same(now: map<nat, Record>, records: map<nat, Record>, k: nat) {
    forall j :: 0 <= j < k ==> (j in records <==> j in now) && (j in records ==> records[j] == now[j])
  }

  lemma ChosenStays(c: Choice, c': Choice, now: map<nat, Record>, records: map<nat, Record>, n: nat)
    requires n < |c.works| && Chosen(c, now, n) && Same(now, records, n)
    requires c' == c.(kept := c'.kept, ran := c'.ran)
    requires c.kept <= c'.kept <= c.kept + {n} && c.ran <= c'.ran <= c.ran + {n}
    ensures forall k :: 0 <= k < n ==> ChosenAt(c', records, k)
    ensures Reached(c', n) <==> Reached(c, n)
  {
    forall k | 0 <= k < n ensures Reached(c', k) <==> Reached(c, k) {
      assert forall j :: 0 <= j < k ==> (PassedNow(c', j) <==> PassedNow(c, j));
    }
    assert forall j :: 0 <= j < n ==> (PassedNow(c', j) <==> PassedNow(c, j));
    forall k | 0 <= k < n ensures ChosenAt(c', records, k) {
      assert ChosenAt(c, now, k);
    }
  }

  ghost predicate AllPassed(c: Choice, n: nat) {
    forall j :: 0 <= j < n && Wanted(c.t, c.noGraphical, j) ==> PassedNow(c, j)
  }

  /** An invocation that has come to stage `n`. */
  ghost predicate Following(c: Choice, records: map<nat, Record>, upstream: bool, blocked: bool, n: nat) {
    && n <= STAGES == |c.works| && Chosen(c, records, n) && (upstream <==> c.ran != {})
    && (blocked <==> !AllPassed(c, n))
    && (!blocked && !upstream ==> records == c.before)
    && forall j: nat :: n <= j < STAGES && j in records ==> j in c.before && records[j] == c.before[j]
  }

  function Chose(c: Choice, n: nat, status: Option<Status>, ran: bool): Choice {
    c.(kept := if status.Some? && !ran then c.kept + {n} else c.kept, ran := if ran then c.ran + {n} else c.ran)
  }

  lemma NothingChosen(c: Choice)
    requires |c.works| == STAGES && c.kept == {} && c.ran == {}
    ensures Following(c, c.before, false, false, 0)
  {
  }

  lemma AllChosen(c: Choice, records: map<nat, Record>, upstream: bool, blocked: bool)
    requires Following(c, records, upstream, blocked, STAGES)
    ensures |c.works| == STAGES && Chosen(c, records, STAGES)
  {
  }

  /** A stage that was entered. */
  lemma StageChosen(c: Choice, now: map<nat, Record>, records: map<nat, Record>, n: nat, upstream: bool,
                    status: Option<Status>, ran: bool)
    requires n < STAGES && Following(c, now, upstream, false, n) && Wanted(c.t, c.noGraphical, n)
    requires StageIs(now, records, n, upstream, c.works[n], c.forced, status, ran)
    ensures Following(Chose(c, n, status, ran), records, upstream || ran, status != Some(Pass), n + 1)
  {
    var c' := Chose(c, n, status, ran);
    ChosenStays(c, c', now, records, n);
    assert Reached(c, n);
    assert n !in c.kept && n !in c.ran;
    assert ChosenAt(c', records, n);
    assert AllPassed(c', n + 1) <==> PassedNow(c', n) by {
      assert forall j :: 0 <= j < n ==> (PassedNow(c', j) <==> PassedNow(c, j));
    }
  }

  /** A stage that was not entered: cleared, or left as it is. */
  lemma StageLeft(c: Choice, now: map<nat, Record>, records: map<nat, Record>, n: nat, upstream: bool, blocked: bool)
    requires n < STAGES && Following(c, now, upstream, blocked, n)
    requires records == now - {n} || records == now
    requires Wanted(c.t, c.noGraphical, n) ==> blocked
    requires (Wanted(c.t, c.noGraphical, n) || (n == GRAPHICAL && !c.t.graphical)) ==> records == now - {n}
    ensures Chosen(c, records, n + 1)
    ensures Wanted(c.t, c.noGraphical, n) || records == now ==> Following(c, records, upstream, blocked, n + 1)
  {
    ChosenStays(c, c, now, records, n);
    assert !Reached(c, n);
    assert ChosenAt(c, records, n);
    assert AllPassed(c, n + 1) <==> !blocked;
  }

  class Pipeline {
    const target: Target
    var records: map<nat, Record>
    var folders: map<nat, Report>
    var artifacts: map<nat, nat>
    var runs: nat
    ghost var events: seq<Event>

    ghost function Machine(): State
      reads this
    {
      Run(target, INITIAL, events)
    }

    /** The disk is the one of the machine, which is in this phase with these flags. */
    ghost predicate Follows(phase: Phase, forced: set<nat>, noGraphical: bool, upstream: bool, blocked: bool)
      reads this
    {
      Machine() == State(Disk(records, folders, artifacts), phase, forced, noGraphical, upstream, blocked, runs)
    }

    constructor (target: Target)
      ensures this.target == target && events == [] && Follows(Idle, {}, false, false, false)
    {
      this.target := target;
      records, folders, artifacts, runs, events := map[], map[], map[], 0, [];
    }

    ghost method Happens(e: Event)
      modifies `events
      ensures events == old(events) + [e] && Machine() == Step(target, old(Machine()), e)
    {
      assert (events + [e])[..|events|] == events;
      events := events + [e];
    }

    method Unlink(path: Path)
      modifies `records, `folders
      ensures Disk(records, folders, artifacts) == RemovePath(old(Disk(records, folders, artifacts)), path)
    {
      match path
      case Folder(k) => folders := folders - {k};
      case RecordFile(k) => records := records - {k};
    }

    /** Removing a folder takes one file after the other. */
    method Tear(k: nat)
      modifies `folders
      ensures folders == Torn(old(folders), k)
    {
      if k in folders {
        folders := folders[k := Partial];
      }
    }

    /** Removes the results of stage `k` and of the stages after it; then the stage is running. */
    method RemoveResults(k: nat, ghost forced: set<nat>, ghost noGraphical: bool, ghost upstream: bool)
      requires k < STAGES && Follows(Removing(k, OutputsFrom(k)), forced, noGraphical, upstream, false)
      modifies `records, `folders, `events, `runs
      ensures Follows(Running(k, old(runs), None), forced, noGraphical, upstream, false) && runs == old(runs) + 1
      ensures OnlyBefore(old(records), records, k)
    {
      hide Run, Drains;
      var paths := OutputsFrom(k);
      OutputsFromIs(k);
      DrainsFirst(records, k);
      while |paths| > 0
        invariant runs == old(runs) && Drains(old(records), records, k, paths)
        invariant if |paths| > 0 then Follows(Removing(k, paths), forced, noGraphical, upstream, false)
                  else Machine() == State(Disk(records, folders, artifacts), Running(k, old(runs), None), forced,
                                          noGraphical, upstream, false, old(runs) + 1)
        decreases |paths|
      {
        if paths[0].Folder? {
          Tear(paths[0].stage);
          Happens(RemoveSome);
        }
        DrainsNext(old(records), Disk(records, folders, artifacts), k, paths);
        Unlink(paths[0]);
        Happens(RemoveNext);
        paths := paths[1..];
      }
      DrainsLast(old(records), records, k);
      runs := runs + 1;
    }

    function NextPhase(k: nat): Phase {
      if k + 1 < STAGES then At(k + 1) else Idle
    }

    /** What comes behind a stage with or without a result. */
    function EndPhase(k: nat, status: Option<Status>): Phase {
      if k < SUITE && status.Some? then Contracting(k) else NextPhase(k)
    }

    /** A stage that does not run leaves no result of its own behind. */
    method NotRun(k: nat, ghost forced: set<nat>, ghost noGraphical: bool, ghost upstream: bool, ghost blocked: bool)
      requires k < STAGES && Follows(Clearing(k, Outputs(k)), forced, noGraphical, upstream, blocked)
      modifies `records, `folders, `events
      ensures Follows(NextPhase(k), forced, noGraphical, upstream, true)
      ensures records == old(records) - {k}
    {
      Tear(k);
      Happens(RemoveSome);
      Unlink(Folder(k));
      Happens(RemoveNext);
      assert Outputs(k)[1..] == [RecordFile(k)];
      Unlink(RecordFile(k));
      Happens(RemoveNext);
    }

    /** The function of the stage: it writes its results any number of times, or takes them away. */
    method Perform(k: nat, run: nat, writes: seq<bool>, ghost forced: set<nat>, ghost noGraphical: bool,
                   ghost upstream: bool)
      returns (ghost made: Option<map<nat, nat>>)
      requires Follows(Running(k, run, None), forced, noGraphical, upstream, false)
      modifies `artifacts, `folders, `events
      ensures Follows(Running(k, run, made), forced, noGraphical, upstream, false)
      ensures made.Some? ==> made.value == Inputs(artifacts, k)
      ensures |writes| > 0 && writes[|writes| - 1] ==> made.Some?
    {
      made := None;
      for i := 0 to |writes|
        invariant Follows(Running(k, run, made), forced, noGraphical, upstream, false)
        invariant made.Some? ==> made.value == Inputs(artifacts, k)
        invariant i > 0 && writes[i - 1] ==> made.Some?
      {
        if writes[i] {
          made := Some(Inputs(artifacts, k));
          artifacts, folders := artifacts[k := run], Made(folders, k, run);
          assert Inputs(artifacts, k) == made.value;
          Happens(Make);
        } else {
          made := None;
          artifacts, folders := artifacts - {k}, Wiped(folders, k);
          Happens(Wipe);
        }
      }
    }

    /** Runs one stage, or takes its earlier result. No status stands for a stage that did not run. */
    method Stage(k: nat, upstream: bool, work: Work, forced: set<nat>, ghost noGraphical: bool)
      returns (status: Option<Status>, ran: bool)
      requires k < STAGES && Follows(At(k), forced, noGraphical, upstream, false) && Enters(target, Machine())
      requires CanPass(work)
      modifies this
      ensures Follows(EndPhase(k, status), forced, noGraphical, upstream || ran, status != Some(Pass))
      ensures StageIs(old(records), records, k, upstream, work, forced, status, ran)
      ensures status.Some? ==> k in records
    {
      Happens(Decide(work.stopBefore));
      if k in records && k !in forced && !upstream {
        return Some(records[k].status), false;
      }
      if work.stopBefore {
        return None, false;
      }
      status, ran := Execute(k, upstream, work, forced, noGraphical);
    }

    method Execute(k: nat, ghost upstream: bool, work: Work, ghost forced: set<nat>, ghost noGraphical: bool)
      returns (status: Option<Status>, ran: bool)
      requires k < STAGES && Follows(Removing(k, OutputsFrom(k)), forced, noGraphical, upstream, false) && CanPass(work)
      modifies this
      ensures Follows(EndPhase(k, status), forced, noGraphical, upstream || ran, status != Some(Pass))
      ensures if work.stopAfter then status == None && !ran && OnlyBefore(old(records), records, k)
              else status == Some(work.status) && ran && k in records && records[k].status == work.status
                   && OnlyBefore(old(records), records - {k}, k)
    {
      hide Run, OutputsFrom;
      var run := runs;
      RemoveResults(k, forced, noGraphical, upstream);
      ghost var made := Perform(k, run, work.writes, forced, noGraphical, upstream);
      Happens(Return(work.status, work.stopAfter));
      if work.stopAfter {
        return None, false;
      }
      records := records[k := Record(work.status, run, Inputs(artifacts, k))];
      return Some(work.status), true;
    }

    /** Behind a stage with a result its stage.json is written, for the prefix and the packages. */
    method Contract(k: nat, status: Option<Status>, ghost forced: set<nat>, ghost noGraphical: bool,
                    ghost upstream: bool, ghost blocked: bool)
      requires Follows(EndPhase(k, status), forced, noGraphical, upstream, blocked) && (status.Some? ==> k in records)
      modifies `folders, `events
      ensures Follows(NextPhase(k), forced, noGraphical, upstream, blocked)
    {
      if k < SUITE && status.Some? {
        folders := folders[k := Whole(records[k].run)];
        Happens(WriteContract);
      }
    }

    /** One invocation for this target, with what each stage does if it runs: which stages are kept and which run, and
        what records are there at the end. */
    method RunTarget(forced: set<nat>, noGraphical: bool, works: seq<Work>)
      returns (ghost kept: set<nat>, ghost ran: set<nat>)
      requires |works| == STAGES && forall i :: 0 <= i < STAGES ==> CanPass(works[i])
      requires Machine().phase == Idle
      requires Machine().disk == Disk(records, folders, artifacts) && Machine().runs == runs
      modifies this
      ensures Machine().phase == Idle
      ensures Machine().disk == Disk(records, folders, artifacts) && Machine().runs == runs
      ensures Chosen(Choice(target, old(records), forced, noGraphical, works, kept, ran), records, STAGES)
    {
      hide Run, OutputsFrom, Following, StageIs, Chosen;
      Happens(Begin(forced, noGraphical));
      var upstream, blocked := false, false;
      ghost var c := Choice(target, records, forced, noGraphical, works, {}, {});
      NothingChosen(c);
      if target.prefix {
        var status, did := Stage(0, upstream, works[0], forced, noGraphical);
        StageChosen(c, c.before, records, 0, upstream, status, did);
        Contract(0, status, forced, noGraphical, upstream || did, status != Some(Pass));
        upstream, blocked, c := did, status != Some(Pass), Chose(c, 0, status, did);
      } else {
        StageLeft(c, records, records, 0, upstream, blocked);
        Happens(Decide(false));
      }
      for k := 1 to GRAPHICAL
        invariant c == Choice(target, old(records), forced, noGraphical, works, c.kept, c.ran)
        invariant Follows(At(k), forced, noGraphical, upstream, blocked) && Following(c, records, upstream, blocked, k)
      {
        upstream, blocked, c := Later(k, upstream, blocked, works[k], forced, noGraphical, c);
      }
      c := Last(upstream, blocked, works[GRAPHICAL], forced, noGraphical, c);
      return c.kept, c.ran;
    }

    /** The graphical stage, which not every target has and not every invocation wants. */
    method Last(upstream: bool, blocked: bool, work: Work, forced: set<nat>, noGraphical: bool, ghost c: Choice)
      returns (ghost c': Choice)
      requires Follows(At(GRAPHICAL), forced, noGraphical, upstream, blocked) && CanPass(work)
      requires Following(c, records, upstream, blocked, GRAPHICAL)
      requires c.t == target && c.noGraphical == noGraphical && c.forced == forced
      requires |c.works| == STAGES && work == c.works[GRAPHICAL]
      modifies this
      ensures exists up, bl :: Follows(Idle, forced, noGraphical, up, bl)
      ensures c' == c.(kept := c'.kept, ran := c'.ran) && |c'.works| == STAGES && Chosen(c', records, STAGES)
    {
      hide Run, OutputsFrom, Following, StageIs, Chosen;
      var up, bl := upstream, blocked;
      c' := c;
      if !target.graphical {
        StageLeft(c, records, records - {GRAPHICAL}, GRAPHICAL, upstream, blocked);
        Happens(Decide(false));
        NotRun(GRAPHICAL, forced, noGraphical, upstream, blocked);
        bl := true;
      } else if noGraphical {
        StageLeft(c, records, records, GRAPHICAL, upstream, blocked);
        Happens(Decide(false));
      } else {
        up, bl, c' := Later(GRAPHICAL, upstream, blocked, work, forced, noGraphical, c);
        AllChosen(c', records, up, bl);
      }
      assert Follows(Idle, forced, noGraphical, up, bl);
    }

    /** A stage after the first: it needs all before it to have passed. */
    method Later(k: nat, upstream: bool, blocked: bool, work: Work, forced: set<nat>, noGraphical: bool,
                 ghost c: Choice)
      returns (upstream': bool, blocked': bool, ghost c': Choice)
      requires 0 < k < STAGES && (k == GRAPHICAL ==> target.graphical && !noGraphical) && CanPass(work)
      requires Follows(At(k), forced, noGraphical, upstream, blocked)
      requires Following(c, records, upstream, blocked, k)
      requires c.t == target && c.noGraphical == noGraphical && c.forced == forced && work == c.works[k]
      modifies this
      ensures Follows(NextPhase(k), forced, noGraphical, upstream', blocked')
      ensures Following(c', records, upstream', blocked', k + 1) && c' == c.(kept := c'.kept, ran := c'.ran)
    {
      hide Following, StageIs, Run;
      if blocked {
        StageLeft(c, records, records - {k}, k, upstream, blocked);
        Happens(Decide(false));
        NotRun(k, forced, noGraphical, upstream, blocked);
        return upstream, true, c;
      }
      ghost var now := records;
      var status, ran := Stage(k, upstream, work, forced, noGraphical);
      StageChosen(c, now, records, k, upstream, status, ran);
      Contract(k, status, forced, noGraphical, upstream || ran, status != Some(Pass));
      return upstream || ran, status != Some(Pass), Chose(c, k, status, ran);
    }
  }
}
