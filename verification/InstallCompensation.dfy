/** The runner of the frozen compensation plan. */
module InstallCompensations {
  import opened Wrappers
  import opened InstallPlans
  import opened InstallApply
  import opened InstallHosts

  datatype Compensation = Compensation(proven: bool, deferredInterrupt: Option<Exc>)

  function CommandsOf(a: Action): seq<Command> {
    match a
    case RestoreFileState(u, state) => [if state.fileState == Enabled then EnableUnitFiles([u]) else DisableUnitFile(u)]
    case RestoreActivity(u, state) => [if state.active then RestartServices([u]) else StopService(u)]
    case DaemonReload => [ReloadManager]
    case _ => []
  }

  /** An action that gives a command gives the one that has its effect. */
  lemma CommandsDoTheAction(a: Action, w: World, tolerant: bool)
    requires !IsProof(a) && CommandsOf(a) != []
    ensures |CommandsOf(a)| == 1
    ensures Execute(a, w, tolerant).Some? ==> Execute(a, w, tolerant) == Some(Obeyed(CommandsOf(a)[0], w))
  {
    if a.RestoreFileState? || a.RestoreActivity? {
      OneStep(a.unit, w);
    }
  }

  lemma OneStep(u: UnitName, w: World)
    ensures RunSteps(Enables([u]), w) == w.(enabled := w.enabled + {u})
    ensures RunSteps(Restarts([u]), w)
            == w.(running := w.running + {u}, processes := w.processes[u := ProcessOf(w, u) + 1])
  {
    assert Enables([u]) == [Enable(u)] && [Enable(u)][1..] == [];
    assert Restarts([u]) == [Restart(u)] && [Restart(u)][1..] == [];
  }

  function PlanCommands(plan: seq<Action>): seq<Command> {
    if plan == [] then [] else PlanCommands(plan[..|plan| - 1]) + CommandsOf(plan[|plan| - 1])
  }

  function PartOf(a: Action): Component
    requires !IsProof(a)
  {
    match a
    case RestoreReceipt(_) => Receipt
    case RestoreFileState(_, _) => Enablement
    case RestoreActivity(_, _) => Activity
    case RestoreUnit(_, _) => Files
    case RestoreShadow(_, _) => Shadows
    case DaemonReload => Loaded
  }

  /** The restoring actions come first; `n` is their number. */
  ghost predicate UndoThenProve(plan: seq<Action>, n: nat) {
    && n <= |plan|
    && (forall i | 0 <= i < |plan| :: IsProof(plan[i]) <==> n <= i)
  }

  class CompensationRunner {
    var proven: bool
    var deferredInterrupt: Option<Exc>

    constructor ()
      ensures proven && deferredInterrupt.None?
    {
      proven, deferredInterrupt := true, None;
    }

    /** An action that raises costs the proof, and the first termination is kept for later. */
    method Note(err: Option<Exc>)
      modifies this
      ensures proven == (old(proven) && err.None?)
      ensures deferredInterrupt ==
                if old(deferredInterrupt).None? && err.Some? && err.value.Exc? && err.value.kind == Termination
                then err else old(deferredInterrupt)
    {
      if err.Some? {
        proven := false;
        if err.value.Exc? && err.value.kind == Termination && deferredInterrupt.None? {
          deferredInterrupt := err;
        }
      }
    }

    method Prove(host: Host, a: Action)
      requires IsProof(a)
      modifies this, host`script, host`nextId, host.guard`count
      ensures old(host.nextId) <= host.nextId
      ensures proven ==> old(proven) && Holds(a, host.world)
      ensures old(host.Quiet()) ==> host.Quiet() && proven == (old(proven) && Holds(a, host.world))
    {
      var err, h := host.Call();
      Note(err);
      if err.None? && !Holds(a, host.world) {
        proven := false;
      }
    }

    method Restore(host: Host, a: Action, tolerant: bool)
      requires !IsProof(a)
      modifies this, host`world, host`script, host`nextId, host`log, host.guard`count
      ensures old(host.nextId) <= host.nextId
      ensures proven ==> old(proven)
      ensures host.log == old(host.log) + CommandsOf(a)
      ensures old(host.Quiet()) ==> host.Quiet()
      ensures old(host.Quiet()) && Execute(a, old(host.world), tolerant).Some? ==>
                proven == old(proven) && host.world == Execute(a, old(host.world), tolerant).value
      ensures old(host.Quiet()) && Execute(a, old(host.world), tolerant).None? ==>
                !proven && host.world == old(host.world)
    {
      var result := Execute(a, host.world, tolerant);
      var next := if result.Some? then result.value else host.world;
      var err;
      if CommandsOf(a) != [] {
        CommandsDoTheAction(a, host.world, tolerant);
        err := host.Systemctl(CommandsOf(a)[0], result.Some?);
      } else {
        err := host.Change(PartOf(a), next);
      }
      if err.None? && result.None? {
        var e := host.NewError(Transaction);
        err := Some(e);
      }
      Note(err);
    }

    method RunOne(host: Host, a: Action, tolerant: bool)
      modifies this, host`world, host`script, host`nextId, host`log, host.guard`count
      ensures old(host.nextId) <= host.nextId
      ensures proven ==> old(proven)
      ensures IsProof(a) ==> host.world == old(host.world) && (proven ==> Holds(a, host.world))
      ensures host.log == old(host.log) + CommandsOf(a)
      ensures old(host.Quiet()) ==> host.Quiet()
      ensures old(host.Quiet()) ==> (host.world, proven) == AfterOne(a, old(host.world), old(proven), tolerant)
    {
      if IsProof(a) {
        Prove(host, a);
      } else {
        Restore(host, a, tolerant);
      }
    }

    /**
     Every action of the plan is tried once, in order, whatever the others do. If the run counts as proven then
     every proof holds of the world it leaves, and without outside interference the run is that of RunPlan.
     */
    method RunAll(host: Host, plan: seq<Action>, tolerant: bool, ghost n: nat)
      requires UndoThenProve(plan, n)
      modifies this, host`world, host`script, host`nextId, host`log, host.guard`count
      ensures old(host.nextId) <= host.nextId
      ensures proven ==> forall i | n <= i < |plan| :: Holds(plan[i], host.world)
      ensures host.log == old(host.log) + PlanCommands(plan)
      ensures old(host.Quiet()) ==> host.Quiet()
      ensures old(host.Quiet()) ==> (host.world, proven) == Remaining(plan, old(host.world), old(proven), tolerant)
    {
      var i := 0;
      while i < |plan|
        invariant 0 <= i <= |plan| && old(host.nextId) <= host.nextId
        invariant proven ==> forall j | n <= j < i :: Holds(plan[j], host.world)
        invariant host.log == old(host.log) + PlanCommands(plan[..i])
        invariant old(host.Quiet()) ==> host.Quiet()
        invariant old(host.Quiet()) ==>
                    Remaining(plan[i..], host.world, proven, tolerant)
                    == Remaining(plan, old(host.world), old(proven), tolerant)
      {
        assert plan[i..][0] == plan[i] && plan[i..][1..] == plan[i + 1..];
        assert plan[..i + 1][..i] == plan[..i];
        RunOne(host, plan[i], tolerant);
        i := i + 1;
      }
      assert plan[..i] == plan;
    }
  }

  ghost function AfterOne(a: Action, w: World, proven: bool, tolerant: bool): (World, bool) {
    if IsProof(a) then (w, proven && Holds(a, w))
    else match Execute(a, w, tolerant)
      case Some(next) => (next, proven)
      case None => (w, false)
  }

  ghost function Remaining(plan: seq<Action>, w: World, proven: bool, tolerant: bool): (World, bool) {
    (RunPlan(plan, w, tolerant).0, proven && RunPlan(plan, w, tolerant).1)
  }

  lemma ProofsAreProofs(c: Captured)
    ensures forall a | a in Proofs(c) :: IsProof(a)
  {
  }

  lemma InPlan(restores: seq<Action>, proofs: seq<Action>, a: Action)
    requires a in proofs
    ensures a in restores + proofs
  {
  }

  lemma PlanUndoesThenProves(c: Captured, restoreActivity: bool)
    ensures UndoThenProve(BuildCompensationActions(c, restoreActivity), |Restores(c, restoreActivity)|)
  {
    forall a | a in Restores(c, restoreActivity)
      ensures !IsProof(a)
    {
    }
    ProofsAreProofs(c);
  }

  ghost predicate AllAllowed(mode: InstallMode, commands: seq<Command>) {
    forall c | c in commands :: Allowed(mode, c)
  }

  /** Undoing an install gives no command that the mode of the install rules out. */
  lemma PlanCommandsAreAllowed(c: Captured, m: Manifest, mode: InstallMode, v: World)
    requires CapturedFrom(c, m, mode, v)
    ensures AllAllowed(mode, PlanCommands(BuildCompensationActions(c, RestoresActivity(mode))))
  {
    var plan := BuildCompensationActions(c, RestoresActivity(mode));
    forall a, command | a in plan && command in CommandsOf(a)
      ensures Allowed(mode, command)
    {
      if a.RestoreFileState? || a.RestoreActivity? {
        StateActions(c, RestoresActivity(mode), a);
        CapturedStatesAreTouched(c, m, mode, v, (a.unit, a.state));
      }
      CommandIsAllowed(mode, a, command);
    }
    EachAllowed(mode, plan);
  }

  lemma CommandIsAllowed(mode: InstallMode, a: Action, command: Command)
    requires command in CommandsOf(a)
    requires a.RestoreActivity? ==> RestoresActivity(mode)
    requires a.RestoreFileState? || a.RestoreActivity? ==> mode == MaintenanceStage ==> a.unit !in DEFERRED
    ensures Allowed(mode, command)
  {
    if a.RestoreFileState? || a.RestoreActivity? {
      assert Named(command) == [a.unit];
    }
  }

  lemma CapturedStatesAreTouched(c: Captured, m: Manifest, mode: InstallMode, v: World, x: (UnitName, UnitState))
    requires CapturedFrom(c, m, mode, v) && x in c.states
    ensures mode == MaintenanceStage ==> x.0 !in DEFERRED
  {
    TouchedUnitsAreCaptured(mode, m, x.0);
  }

  lemma StateActions(c: Captured, activity: bool, a: Action)
    requires a in BuildCompensationActions(c, activity) && (a.RestoreFileState? || a.RestoreActivity?)
    ensures (a.unit, a.state) in c.states
    ensures a.RestoreActivity? ==> activity
  {
    assert a !in Proofs(c);
    assert a !in FileRestores(c) && a !in ReceiptRestore(c);
    if a in StateRestores(Absent(c.states), activity) {
      StateAction(Absent(c.states), activity, a);
    } else {
      StateAction(Present(c.states), activity, a);
    }
  }

  lemma StateAction(s: seq<(UnitName, UnitState)>, activity: bool, a: Action)
    requires a in StateRestores(s, activity)
    ensures (a.RestoreFileState? || a.RestoreActivity?) && (a.unit, a.state) in s
    ensures a.RestoreActivity? ==> activity
  {
  }

  lemma {:induction false} EachAllowed(mode: InstallMode, plan: seq<Action>)
    requires forall a, command | a in plan && command in CommandsOf(a) :: Allowed(mode, command)
    ensures AllAllowed(mode, PlanCommands(plan))
  {
    if plan != [] {
      EachAllowed(mode, plan[..|plan| - 1]);
      assert plan[|plan| - 1] in plan;
    }
  }

  function FrozenPlan(c: Captured, mode: InstallMode): seq<Action> {
    BuildCompensationActions(c, RestoresActivity(mode))
  }

  ghost predicate ProofsHold(plan: seq<Action>, w: World) {
    forall i | 0 <= i < |plan| && IsProof(plan[i]) :: Holds(plan[i], w)
  }

  lemma ProvenMeansBack(c: Captured, m: Manifest, mode: InstallMode, v: World, w: World)
    requires CapturedFrom(c, m, mode, v) && ProofsHold(FrozenPlan(c, mode), w)
    ensures SameComponents(m, mode, v, w)
  {
    var plan := FrozenPlan(c, mode);
    ProofsAreProofs(c);
    forall a | a in Proofs(c)
      ensures IsProof(a) && Holds(a, w)
    {
      InPlan(Restores(c, RestoresActivity(mode)), Proofs(c), a);
      var i :| 0 <= i < |plan| && plan[i] == a;
    }
    ProofsCoverComponents(c, m, mode, v, w);
  }

  /** Runs the frozen plan to its end and then checks the boundary of the install mode once more. */
  method Compensate(host: Host, c: Captured, mode: InstallMode, tolerant: bool, boundary: bool)
    returns (result: Compensation)
    modifies host`world, host`script, host`nextId, host`log, host.guard`count
    ensures old(host.nextId) <= host.nextId
    ensures result.proven ==> ProofsHold(FrozenPlan(c, mode), host.world) && boundary
    ensures host.log == old(host.log) + PlanCommands(FrozenPlan(c, mode))
    ensures old(host.Quiet()) && boundary ==> host.Quiet()
    ensures old(host.Quiet()) && boundary ==>
              (host.world, result.proven) == Remaining(FrozenPlan(c, mode), old(host.world), true, tolerant)
  {
    var runner := new CompensationRunner();
    var plan := FrozenPlan(c, mode);
    PlanUndoesThenProves(c, RestoresActivity(mode));
    runner.RunAll(host, plan, tolerant, |Restores(c, RestoresActivity(mode))|);
    var err := host.Check(boundary);
    runner.Note(err);
    result := Compensation(runner.proven, runner.deferredInterrupt);
  }
}
