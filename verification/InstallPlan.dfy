/**
 The systemd install: its lifecycle policy, the frozen compensation plan, and what the plan does to the
 managed components of the host.
 */
module InstallPlans {
  import opened Wrappers

  /** The registry singles out three units; all other managed units are activated by the install itself. */
  datatype UnitName = ReindexUnit | CodegraphUnit | WebhookUnit | OtherUnit(id: nat)

  datatype UnitSpec = UnitSpec(name: UnitName, content: nat, enable: bool, restart: bool)

  type Manifest = seq<UnitSpec>

  datatype InstallMode = Normal | MaintenanceStage | GuardedStage | InstallOnly

  datatype UnitFile = UnitFile(content: nat, mode: nat, uid: nat, gid: nat)

  datatype FileState = Enabled | Disabled | NotFound

  datatype UnitState = UnitState(fileState: FileState, active: bool)

  /** The legacy release drop-in of a unit: in force, archived, or neither. */
  datatype Shadow = Shadow(active: Option<nat>, archive: Option<nat>)

  /**
   The components of the host that an install may change, and whether the codegraph unit is under a runtime
   mask, which an install only reads.
   */
  datatype World = World(
    files: map<UnitName, UnitFile>,
    loaded: map<UnitName, UnitFile>,
    shadows: map<UnitName, Shadow>,
    enabled: set<UnitName>,
    running: set<UnitName>,
    receipt: Option<nat>,
    processes: map<UnitName, nat>,
    masked: bool)

  function FileOf(w: World, u: UnitName): Option<UnitFile> {
    if u in w.files then Some(w.files[u]) else None
  }

  function ShadowOf(w: World, u: UnitName): Shadow {
    if u in w.shadows then w.shadows[u] else Shadow(None, None)
  }

  function ProcessOf(w: World, u: UnitName): nat {
    if u in w.processes then w.processes[u] else 0
  }

  /** The unit files that the service manager takes in when it reloads: all but that of a masked unit. */
  function Visible(w: World): map<UnitName, UnitFile> {
    if w.masked then w.files - {CodegraphUnit} else w.files
  }

  /** The state of a unit; without a unit file it must be neither enabled nor running, or it cannot be described. */
  function StateOf(w: World, u: UnitName): Option<UnitState> {
    if u in w.files then Some(UnitState(if u in w.enabled then Enabled else Disabled, u in w.running))
    else if u in w.enabled || u in w.running then None
    else Some(UnitState(NotFound, false))
  }

  /** A state that can be described leaves nothing of the unit out. */
  lemma StateTellsAll(w: World, u: UnitName, s: UnitState)
    ensures StateOf(w, u) == Some(s) <==>
            && (s.fileState == NotFound <==> u !in w.files)
            && (s.fileState == Enabled <==> u in w.enabled)
            && (s.active <==> u in w.running)
            && (u !in w.files ==> u !in w.running)
  {
  }

  // --- manifest and policy ------------------------------------------------------------------

  const DEFERRED: seq<UnitName> := [ReindexUnit, CodegraphUnit, WebhookUnit]

  predicate StandardActivation(u: UnitName) {
    u.OtherUnit?
  }

  predicate DistinctNames(m: Manifest) {
    forall i, j | 0 <= i < j < |m| :: m[i].name != m[j].name
  }

  predicate ValidManifest(m: Manifest) {
    && m != []
    && DistinctNames(m)
    && (forall i | 0 <= i < |m| :: m[i].restart || StandardActivation(m[i].name))
  }

  function Names(m: Manifest): seq<UnitName> {
    seq(|m|, i requires 0 <= i < |m| => m[i].name)
  }

  function EnableUnits(m: Manifest): seq<UnitName> {
    if m == [] then [] else (if m[0].enable then [m[0].name] else []) + EnableUnits(m[1..])
  }

  function RestartUnits(m: Manifest): seq<UnitName> {
    if m == [] then [] else (if m[0].restart then [m[0].name] else []) + RestartUnits(m[1..])
  }

  function ImmediateRestartUnits(m: Manifest): seq<UnitName> {
    if m == [] then []
    else (if m[0].restart && StandardActivation(m[0].name) then [m[0].name] else []) + ImmediateRestartUnits(m[1..])
  }

  /** An install in this mode is to enable the unit: its flag is set, and a maintenance stage does not defer it. */
  predicate IsToEnable(mode: InstallMode, s: UnitSpec) {
    s.enable && (mode == MaintenanceStage ==> s.name.OtherUnit?)
  }

  /** An install in this mode is to restart the unit: its flag is set, and nobody else is to activate it. */
  predicate IsToRestart(mode: InstallMode, s: UnitSpec) {
    s.restart && s.name.OtherUnit? && (mode == Normal || mode == MaintenanceStage)
  }

  predicate ToEnable(mode: InstallMode, m: Manifest, u: UnitName) {
    exists i :: 0 <= i < |m| && m[i].name == u && IsToEnable(mode, m[i])
  }

  predicate ToRestart(mode: InstallMode, m: Manifest, u: UnitName) {
    exists i :: 0 <= i < |m| && m[i].name == u && IsToRestart(mode, m[i])
  }

  lemma {:induction false} EnabledByFlag(m: Manifest, u: UnitName)
    ensures u in EnableUnits(m) <==> exists i :: 0 <= i < |m| && m[i].name == u && m[i].enable
  {
    if m != [] {
      EnabledByFlag(m[1..], u);
      assert forall i | 1 <= i < |m| :: m[i] == m[1..][i - 1];
      assert forall i | 0 <= i < |m[1..]| :: m[1..][i] == m[i + 1];
    }
  }

  lemma {:induction false} RestartedByFlag(m: Manifest, u: UnitName)
    ensures u in RestartUnits(m) <==> exists i :: 0 <= i < |m| && m[i].name == u && m[i].restart
  {
    if m != [] {
      RestartedByFlag(m[1..], u);
      assert forall i | 1 <= i < |m| :: m[i] == m[1..][i - 1];
      assert forall i | 0 <= i < |m[1..]| :: m[1..][i] == m[i + 1];
    }
  }

  lemma {:induction false} RestartedAtOnceByFlag(m: Manifest, u: UnitName)
    ensures u in ImmediateRestartUnits(m) <==>
            exists i :: 0 <= i < |m| && m[i].name == u && m[i].restart && u.OtherUnit?
  {
    if m != [] {
      RestartedAtOnceByFlag(m[1..], u);
      assert forall i | 1 <= i < |m| :: m[i] == m[1..][i - 1];
      assert forall i | 0 <= i < |m[1..]| :: m[1..][i] == m[i + 1];
    }
  }

  lemma UnitsAreChosenByFlag(m: Manifest, u: UnitName)
    ensures u in EnableUnits(m) <==> exists i :: 0 <= i < |m| && m[i].name == u && m[i].enable
    ensures u in RestartUnits(m) <==> exists i :: 0 <= i < |m| && m[i].name == u && m[i].restart
    ensures u in ImmediateRestartUnits(m) <==>
            exists i :: 0 <= i < |m| && m[i].name == u && m[i].restart && u.OtherUnit?
  {
    EnabledByFlag(m, u);
    RestartedByFlag(m, u);
    RestartedAtOnceByFlag(m, u);
  }

  lemma {:induction false} NoUnitTwice(m: Manifest, u: UnitName)
    requires DistinctNames(m)
    ensures multiset(ImmediateRestartUnits(m))[u] <= 1
  {
    if m != [] {
      NoUnitTwice(m[1..], u);
      UnitsAreChosenByFlag(m[1..], m[0].name);
    }
  }

  lemma {:induction false} DropTakesNothingTwice(names: seq<UnitName>, dropped: seq<UnitName>, u: UnitName)
    ensures multiset(Drop(names, dropped))[u] <= multiset(names)[u]
  {
    if names != [] {
      DropTakesNothingTwice(names[1..], dropped, u);
      assert names == [names[0]] + names[1..];
    }
  }

  lemma DeferredUnits(mode: InstallMode, u: UnitName)
    ensures u in Deferred(mode) <==> (mode == MaintenanceStage || mode == GuardedStage) && !u.OtherUnit?
  {
  }

  /** The flags alone, told unit by unit, decide which units the lifecycle commands name. */
  lemma EnablesFollowFlags(mode: InstallMode, m: Manifest, u: UnitName)
    ensures u in EnableNames(mode, EnableUnits(m)) <==> ToEnable(mode, m, u)
  {
    UnitsAreChosenByFlag(m, u);
    DeferredUnits(mode, u);
    assert u in EnableNames(mode, EnableUnits(m)) <==>
           u in EnableUnits(m) && (mode == MaintenanceStage ==> u.OtherUnit?);
  }

  lemma RestartsFollowFlags(mode: InstallMode, m: Manifest, u: UnitName)
    ensures u in RestartNames(mode, ImmediateRestartUnits(m)) <==> ToRestart(mode, m, u)
  {
    UnitsAreChosenByFlag(m, u);
    DeferredUnits(mode, u);
    assert u in RestartNames(mode, ImmediateRestartUnits(m)) <==>
           u in ImmediateRestartUnits(m) && (mode == Normal || mode == MaintenanceStage);
  }

  lemma NothingIsRestartedTwice(mode: InstallMode, m: Manifest, u: UnitName)
    requires DistinctNames(m)
    ensures multiset(RestartNames(mode, ImmediateRestartUnits(m)))[u] <= 1
  {
    if !StaysPassive(mode) {
      DropTakesNothingTwice(ImmediateRestartUnits(m), Deferred(mode), u);
      NoUnitTwice(m, u);
    }
  }

  function Keep(names: seq<UnitName>, keep: set<UnitName>): (r: seq<UnitName>)
    ensures forall u :: u in r <==> u in names && u in keep
  {
    if names == [] then [] else (if names[0] in keep then [names[0]] else []) + Keep(names[1..], keep)
  }

  function Drop(names: seq<UnitName>, dropped: seq<UnitName>): (r: seq<UnitName>)
    ensures forall u :: u in r <==> u in names && u !in dropped
  {
    if names == [] then [] else (if names[0] in dropped then [] else [names[0]]) + Drop(names[1..], dropped)
  }

  function Deferred(mode: InstallMode): seq<UnitName> {
    if mode == MaintenanceStage || mode == GuardedStage then DEFERRED else []
  }

  predicate StaysPassive(mode: InstallMode) {
    mode == InstallOnly || mode == GuardedStage
  }

  /** The units whose enablement an install in this mode may change. */
  function EnableNames(mode: InstallMode, names: seq<UnitName>): seq<UnitName> {
    if StaysPassive(mode) then names else Drop(names, Deferred(mode))
  }

  /** The units whose activity an install in this mode may change. */
  function RestartNames(mode: InstallMode, names: seq<UnitName>): seq<UnitName> {
    if StaysPassive(mode) then [] else Drop(names, Deferred(mode))
  }

  function StateNames(mode: InstallMode, m: Manifest): seq<UnitName> {
    var touched := EnableNames(mode, EnableUnits(m)) + RestartNames(mode, RestartUnits(m));
    Keep(Names(m), set u | u in touched)
  }

  predicate RestoresActivity(mode: InstallMode) {
    !StaysPassive(mode)
  }

  predicate WritesReceipt(mode: InstallMode) {
    mode == MaintenanceStage || mode == GuardedStage
  }

  predicate ProvesProcesses(mode: InstallMode) {
    StaysPassive(mode)
  }

  /** A stage must cover all deferred units with their full lifecycle; a normal install must have none of them. */
  predicate ModeAdmits(mode: InstallMode, m: Manifest) {
    match mode
    case InstallOnly => true
    case Normal => forall u | u in DEFERRED :: u !in Names(m)
    case _ => forall u | u in DEFERRED :: exists i | 0 <= i < |m| :: m[i].name == u && m[i].enable && m[i].restart
  }

  /** A normal install has no unit of its own activation; a stage has all of them, with both flags set. */
  predicate ModeFits(mode: InstallMode, m: Manifest) {
    && (mode == Normal ==> forall i | 0 <= i < |m| :: m[i].name.OtherUnit?)
    && (mode == MaintenanceStage || mode == GuardedStage ==>
          HasBothFlags(m, ReindexUnit) && HasBothFlags(m, CodegraphUnit) && HasBothFlags(m, WebhookUnit))
  }

  predicate HasBothFlags(m: Manifest, u: UnitName) {
    exists i :: 0 <= i < |m| && m[i].name == u && m[i].enable && m[i].restart
  }

  lemma ModeAdmitsIffFits(mode: InstallMode, m: Manifest)
    ensures ModeAdmits(mode, m) <==> ModeFits(mode, m)
  {
    assert forall u :: u in DEFERRED <==> !u.OtherUnit?;
    assert forall i | 0 <= i < |m| :: Names(m)[i] == m[i].name;
    if ModeAdmits(mode, m) && mode != InstallOnly && mode != Normal {
      assert ReindexUnit in DEFERRED && CodegraphUnit in DEFERRED && WebhookUnit in DEFERRED;
    }
  }

  /** Every unit that an install can enable or restart has its state captured first. */
  lemma TouchedUnitsAreCaptured(mode: InstallMode, m: Manifest, u: UnitName)
    ensures u in EnableNames(mode, EnableUnits(m)) || u in RestartNames(mode, ImmediateRestartUnits(m)) ==>
              u in StateNames(mode, m)
    ensures u in StateNames(mode, m) ==> u in Names(m)
    ensures mode == MaintenanceStage && u in StateNames(mode, m) ==> u !in DEFERRED
  {
    LifecycleUnitsAreNamed(m, u);
  }

  /** The state of the unit may be changed by an install in this mode, as its flags say. */
  predicate IsStateful(mode: InstallMode, s: UnitSpec) {
    match mode
    case Normal => s.enable || s.restart
    case MaintenanceStage => (s.enable || s.restart) && s.name.OtherUnit?
    case _ => s.enable
  }

  predicate ToCapture(mode: InstallMode, m: Manifest, u: UnitName) {
    exists i :: 0 <= i < |m| && m[i].name == u && IsStateful(mode, m[i])
  }

  lemma TouchedUnits(mode: InstallMode, m: Manifest, u: UnitName)
    ensures u in StateNames(mode, m) <==>
            u in EnableNames(mode, EnableUnits(m)) || u in RestartNames(mode, RestartUnits(m))
  {
    LifecycleUnitsAreNamed(m, u);
    var touched := EnableNames(mode, EnableUnits(m)) + RestartNames(mode, RestartUnits(m));
    assert u in touched <==> u in EnableNames(mode, EnableUnits(m)) || u in RestartNames(mode, RestartUnits(m));
  }

  lemma StatesFollowFlags(mode: InstallMode, m: Manifest, u: UnitName)
    ensures u in StateNames(mode, m) <==> ToCapture(mode, m, u)
  {
    TouchedUnits(mode, m, u);
    UnitsAreChosenByFlag(m, u);
    DeferredUnits(mode, u);
    assert u in StateNames(mode, m) <==>
           if StaysPassive(mode) then u in EnableUnits(m)
           else (u in EnableUnits(m) || u in RestartUnits(m)) && (mode == MaintenanceStage ==> u.OtherUnit?);
  }

  lemma {:induction false} LifecycleUnitsAreNamed(m: Manifest, u: UnitName)
    ensures u in ImmediateRestartUnits(m) ==> u in RestartUnits(m)
    ensures u in EnableUnits(m) || u in RestartUnits(m) ==> u in Names(m)
  {
    if m != [] {
      LifecycleUnitsAreNamed(m[1..], u);
      assert Names(m) == [m[0].name] + Names(m[1..]);
    }
  }

  // --- the plan -----------------------------------------------------------------------------

  datatype Action =
    | RestoreReceipt(receipt: Option<nat>)
    | RestoreFileState(unit: UnitName, state: UnitState)
    | RestoreActivity(unit: UnitName, state: UnitState)
    | RestoreUnit(unit: UnitName, file: Option<UnitFile>)
    | RestoreShadow(unit: UnitName, shadow: Shadow)
    | DaemonReload
    | ProveUnit(unit: UnitName, file: Option<UnitFile>)
    | ProveShadows(shadows: seq<(UnitName, Shadow)>)
    | ProveState(unit: UnitName, state: UnitState)
    | ProveReceipt(receipt: Option<nat>)
    | ProveProcess(unit: UnitName, process: nat)

  predicate IsProof(a: Action) {
    a.ProveUnit? || a.ProveShadows? || a.ProveState? || a.ProveReceipt? || a.ProveProcess?
  }

  /** Everything that is read and frozen before the first change. */
  datatype Captured = Captured(
    originals: seq<(UnitName, Option<UnitFile>)>,
    shadows: seq<(UnitName, Shadow)>,
    states: seq<(UnitName, UnitState)>,
    receiptContent: Option<nat>,
    receiptOriginal: Option<nat>,
    processes: seq<(UnitName, nat)>)

  function Absent(states: seq<(UnitName, UnitState)>): (r: seq<(UnitName, UnitState)>)
    ensures forall x :: x in r <==> x in states && x.1.fileState == NotFound
  {
    if states == [] then []
    else (if states[0].1.fileState == NotFound then [states[0]] else []) + Absent(states[1..])
  }

  function Present(states: seq<(UnitName, UnitState)>): (r: seq<(UnitName, UnitState)>)
    ensures forall x :: x in r <==> x in states && x.1.fileState != NotFound
  {
    if states == [] then []
    else (if states[0].1.fileState != NotFound then [states[0]] else []) + Present(states[1..])
  }

  function FileStates(states: seq<(UnitName, UnitState)>): (r: seq<Action>)
    ensures forall a | a in r :: a.RestoreFileState? && (a.unit, a.state) in states
  {
    seq(|states|, i requires 0 <= i < |states| => RestoreFileState(states[i].0, states[i].1))
  }

  function Activities(states: seq<(UnitName, UnitState)>): (r: seq<Action>)
    ensures forall a | a in r :: a.RestoreActivity? && (a.unit, a.state) in states
  {
    seq(|states|, i requires 0 <= i < |states| => RestoreActivity(states[i].0, states[i].1))
  }

  function Reversed<T>(xs: seq<T>): seq<T> {
    seq(|xs|, i requires 0 <= i < |xs| => xs[|xs| - 1 - i])
  }

  function UnitRestores(originals: seq<(UnitName, Option<UnitFile>)>): (r: seq<Action>)
    ensures forall a | a in r :: a.RestoreUnit? && (a.unit, a.file) in originals
  {
    seq(|originals|, i requires 0 <= i < |originals| => RestoreUnit(originals[i].0, originals[i].1))
  }

  function ShadowRestores(shadows: seq<(UnitName, Shadow)>): (r: seq<Action>)
    ensures forall a | a in r :: a.RestoreShadow? && (a.unit, a.shadow) in shadows
  {
    seq(|shadows|, i requires 0 <= i < |shadows| => RestoreShadow(shadows[i].0, shadows[i].1))
  }

  function ReceiptRestore(c: Captured): seq<Action> {
    if c.receiptContent.Some? then [RestoreReceipt(c.receiptOriginal)] else []
  }

  function StateRestores(states: seq<(UnitName, UnitState)>, restoreActivity: bool): seq<Action> {
    FileStates(states) + (if restoreActivity then Activities(states) else [])
  }

  function FileRestores(c: Captured): seq<Action> {
    UnitRestores(Reversed(c.originals)) + ShadowRestores(Reversed(c.shadows)) + [DaemonReload]
  }

  /** New units are disabled while their file is still there; old units are enabled after their file is back. */
  function Restores(c: Captured, restoreActivity: bool): seq<Action> {
    ReceiptRestore(c)
    + StateRestores(Absent(c.states), restoreActivity)
    + FileRestores(c)
    + StateRestores(Present(c.states), restoreActivity)
  }

  function UnitProofs(c: Captured): seq<Action> {
    seq(|c.originals|, i requires 0 <= i < |c.originals| => ProveUnit(c.originals[i].0, c.originals[i].1))
  }

  function StateProofs(c: Captured): seq<Action> {
    seq(|c.states|, i requires 0 <= i < |c.states| => ProveState(c.states[i].0, c.states[i].1))
  }

  function ProcessProofs(c: Captured): seq<Action> {
    seq(|c.processes|, i requires 0 <= i < |c.processes| => ProveProcess(c.processes[i].0, c.processes[i].1))
  }

  function Proofs(c: Captured): seq<Action> {
    UnitProofs(c)
    + [ProveShadows(c.shadows)]
    + StateProofs(c)
    + (if c.receiptContent.Some? then [ProveReceipt(c.receiptOriginal)] else [])
    + ProcessProofs(c)
  }

  /** The frozen plan: first undo every component, then prove every component. */
  function BuildCompensationActions(c: Captured, restoreActivity: bool): seq<Action> {
    Restores(c, restoreActivity) + Proofs(c)
  }

  // --- what the actions do ------------------------------------------------------------------

  function MovedBack(current: Shadow, original: Shadow): Option<Shadow> {
    if original.active.None? then
      if current == original then Some(current) else None
    else if current == Shadow(original.active, None) then Some(current)
    else if current.active.None? && current.archive == original.active then Some(Shadow(original.active, None))
    else None
  }

  /**
   A drop-in is moved back only from its archive, and a drop-in that is neither as captured nor archived is left
   alone and fails the action.
   */
  lemma OnlyArchivedShadowsMove(current: Shadow, original: Shadow)
    requires original.active.None? || original.archive.None?
    ensures MovedBack(current, original) ==
            if current == original || (original.active.Some? && current == Shadow(None, original.active))
            then Some(original) else None
  {
  }

  function SetFile(w: World, u: UnitName, file: Option<UnitFile>): World {
    w.(files := if file.Some? then w.files[u := file.value] else w.files - {u})
  }

  function Include(s: set<UnitName>, u: UnitName, present: bool): set<UnitName> {
    if present then s + {u} else s - {u}
  }

  /**
   What a restoring action does, or None if it fails. Unless the service manager is tolerant, a command that
   names a unit without a unit file fails.
   */
  function Execute(a: Action, w: World, tolerant: bool): Option<World>
    requires !IsProof(a)
  {
    match a
    case RestoreReceipt(receipt) => Some(w.(receipt := receipt))
    case RestoreFileState(u, state) =>
      if tolerant || u in w.files then Some(w.(enabled := Include(w.enabled, u, state.fileState == Enabled))) else None
    case RestoreActivity(u, state) =>
      if tolerant || u in w.files then
        Some(w.(running := Include(w.running, u, state.active), processes := w.processes[u := ProcessOf(w, u) + 1]))
      else None
    case RestoreUnit(u, file) => Some(SetFile(w, u, file))
    case RestoreShadow(u, shadow) =>
      var back := MovedBack(ShadowOf(w, u), shadow);
      if back.Some? then Some(w.(shadows := w.shadows[u := back.value])) else None
    case DaemonReload => Some(w.(loaded := Visible(w)))
  }

  predicate Holds(a: Action, w: World)
    requires IsProof(a)
  {
    match a
    case ProveUnit(u, file) => FileOf(w, u) == file
    case ProveShadows(shadows) => forall i | 0 <= i < |shadows| :: ShadowOf(w, shadows[i].0) == shadows[i].1
    case ProveState(u, state) => StateOf(w, u) == Some(state)
    case ProveReceipt(receipt) => w.receipt == receipt
    case ProveProcess(u, process) => ProcessOf(w, u) == process
  }

  /** A plan run without any fault from outside: the final world, and whether every action went well. */
  function RunPlan(plan: seq<Action>, w: World, tolerant: bool): (World, bool)
    decreases |plan|
  {
    if plan == [] then (w, true)
    else if IsProof(plan[0]) then
      var rest := RunPlan(plan[1..], w, tolerant);
      (rest.0, rest.1 && Holds(plan[0], w))
    else match Execute(plan[0], w, tolerant)
      case Some(next) => RunPlan(plan[1..], next, tolerant)
      case None => (RunPlan(plan[1..], w, tolerant).0, false)
  }

  // --- capturing ----------------------------------------------------------------------------

  /** `c` is what the capture reads in world `w`. */
  ghost predicate CapturedFrom(c: Captured, m: Manifest, mode: InstallMode, w: World) {
    && |c.originals| == |m| && (forall i | 0 <= i < |m| :: c.originals[i] == (m[i].name, FileOf(w, m[i].name)))
    && |c.shadows| == |m| && (forall i | 0 <= i < |m| :: c.shadows[i] == (m[i].name, ShadowOf(w, m[i].name)))
    && (forall i | 0 <= i < |m| :: c.shadows[i].1.active.None? || c.shadows[i].1.archive.None?)
    && |c.states| == |StateNames(mode, m)|
    && (forall i | 0 <= i < |c.states| ::
          c.states[i].0 == StateNames(mode, m)[i] && StateOf(w, c.states[i].0) == Some(c.states[i].1))
    && (c.receiptContent.Some? <==> WritesReceipt(mode))
    && (WritesReceipt(mode) ==> c.receiptOriginal == w.receipt)
    && |c.processes| == (if ProvesProcesses(mode) then |m| else 0)
    && (forall i | 0 <= i < |c.processes| :: c.processes[i] == (m[i].name, ProcessOf(w, m[i].name)))
  }

  /** The components that an install in this mode freezes are the same in both worlds. */
  ghost predicate SameComponents(m: Manifest, mode: InstallMode, v: World, w: World) {
    && (forall u | u in Names(m) :: FileOf(v, u) == FileOf(w, u) && ShadowOf(v, u) == ShadowOf(w, u))
    && (forall u | u in StateNames(mode, m) :: StateOf(v, u) == StateOf(w, u))
    && (mode == MaintenanceStage || mode == GuardedStage ==> v.receipt == w.receipt)
    && (mode == InstallOnly || mode == GuardedStage ==>
          forall u | u in Names(m) :: ProcessOf(v, u) == ProcessOf(w, u))
  }

  ghost predicate AllHold(proofs: seq<Action>, w: World) {
    forall a | a in proofs :: IsProof(a) && Holds(a, w)
  }

  /** The proofs of the plan leave no frozen component out, and they look at nothing else. */
  lemma ProofsCoverComponents(c: Captured, m: Manifest, mode: InstallMode, v: World, w: World)
    requires CapturedFrom(c, m, mode, v)
    ensures AllHold(Proofs(c), w) <==> SameComponents(m, mode, v, w)
  {
    UnitAndShadowProofs(c, m, mode, v, w);
    StatesAreProven(c, m, mode, v, w);
    ProcessesAreProven(c, m, mode, v, w);
    var receipt := if c.receiptContent.Some? then [ProveReceipt(c.receiptOriginal)] else [];
    AllHoldInTurn(UnitProofs(c), [ProveShadows(c.shadows)], w);
    AllHoldInTurn(UnitProofs(c) + [ProveShadows(c.shadows)], StateProofs(c), w);
    AllHoldInTurn(UnitProofs(c) + [ProveShadows(c.shadows)] + StateProofs(c), receipt, w);
    AllHoldInTurn(UnitProofs(c) + [ProveShadows(c.shadows)] + StateProofs(c) + receipt, ProcessProofs(c), w);
    OneHolds(ProveShadows(c.shadows), w);
    OneHolds(ProveReceipt(c.receiptOriginal), w);
  }

  lemma AllHoldInTurn(p: seq<Action>, q: seq<Action>, w: World)
    ensures AllHold(p + q, w) <==> AllHold(p, w) && AllHold(q, w)
  {
    assert forall a :: a in p + q <==> a in p || a in q;
  }

  lemma OneHolds(a: Action, w: World)
    requires IsProof(a)
    ensures AllHold([a], w) <==> Holds(a, w)
  {
    assert a in [a];
  }

  lemma UnitAndShadowProofs(c: Captured, m: Manifest, mode: InstallMode, v: World, w: World)
    requires CapturedFrom(c, m, mode, v)
    ensures AllHold(UnitProofs(c), w) && Holds(ProveShadows(c.shadows), w) <==>
            forall u | u in Names(m) :: FileOf(v, u) == FileOf(w, u) && ShadowOf(v, u) == ShadowOf(w, u)
  {
    forall i | 0 <= i < |m|
      ensures Names(m)[i] == m[i].name && m[i].name in Names(m)
      ensures UnitProofs(c)[i] == ProveUnit(m[i].name, FileOf(v, m[i].name)) && UnitProofs(c)[i] in UnitProofs(c)
      ensures c.shadows[i] == (m[i].name, ShadowOf(v, m[i].name))
    {
    }
  }

  lemma StatesAreProven(c: Captured, m: Manifest, mode: InstallMode, v: World, w: World)
    requires CapturedFrom(c, m, mode, v)
    ensures AllHold(StateProofs(c), w) <==> forall u | u in StateNames(mode, m) :: StateOf(v, u) == StateOf(w, u)
  {
    var names := StateNames(mode, m);
    forall i | 0 <= i < |c.states|
      ensures StateProofs(c)[i] == ProveState(names[i], c.states[i].1) && StateProofs(c)[i] in StateProofs(c)
      ensures StateOf(v, names[i]) == Some(c.states[i].1)
    {
    }
  }

  lemma ProcessesAreProven(c: Captured, m: Manifest, mode: InstallMode, v: World, w: World)
    requires CapturedFrom(c, m, mode, v)
    ensures AllHold(ProcessProofs(c), w) <==>
            (ProvesProcesses(mode) ==> forall u | u in Names(m) :: ProcessOf(v, u) == ProcessOf(w, u))
  {
    forall i | 0 <= i < |c.processes|
      ensures Names(m)[i] == m[i].name && m[i].name in Names(m)
      ensures ProcessProofs(c)[i] == ProveProcess(m[i].name, ProcessOf(v, m[i].name))
      ensures ProcessProofs(c)[i] in ProcessProofs(c)
    {
    }
  }
}
