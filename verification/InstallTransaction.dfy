/** The install transaction: apply under two locks, compensate a failed apply, settle locks and interrupts. */
module InstallTransactions {
  import opened Wrappers
  import opened InstallPlans
  import opened InstallCoverage
  import opened InstallApply
  import opened InstallHosts
  import opened InstallPrepares
  import opened InstallCompensations

  // --- apply --------------------------------------------------------------------------------

  method WriteUnits(host: Host, m: Manifest) returns (err: Option<Exc>)
    modifies host`world, host`script, host`nextId, host.guard`count
    ensures old(host.nextId) <= host.nextId
    ensures err.Some? ==> err.value.Exc? && old(host.nextId) <= err.value.id < host.nextId
    ensures err.None? ==> host.world == old(host.world).(files := host.world.files)
    ensures old(host.Quiet()) ==> host.Quiet() && err.None? && host.world == RunSteps(Writes(m), old(host.world))
  {
    err := None;
    var i := 0;
    while i < |m| && err.None?
      invariant i <= |m| && old(host.nextId) <= host.nextId
      invariant err.Some? ==> err.value.Exc? && old(host.nextId) <= err.value.id < host.nextId
      invariant err.None? ==> host.world == old(host.world).(files := host.world.files)
      invariant old(host.Quiet()) ==> host.Quiet() && err.None?
      invariant old(host.Quiet()) ==> RunSteps(Writes(m)[i..], host.world) == RunSteps(Writes(m), old(host.world))
    {
      var step := WriteUnit(m[i].name, m[i].content);
      assert Writes(m)[i..][0] == step && Writes(m)[i..][1..] == Writes(m)[i + 1..];
      err := host.Change(Files, Advance(step, host.world));
      i := i + 1;
    }
  }

  /** Moves one drop-in to its archive name, on condition that it is still as captured. */
  method RetireOne(host: Host, u: UnitName, original: Shadow) returns (err: Option<Exc>)
    modifies host`world, host`script, host`nextId, host.guard`count
    ensures old(host.nextId) <= host.nextId
    ensures err.Some? ==> err.value.Exc? && old(host.nextId) <= err.value.id < host.nextId
    ensures err.None? ==> host.world == old(host.world).(shadows := host.world.shadows)
    ensures old(host.Quiet()) && ShadowOf(old(host.world), u) == original ==>
              original.active.None? || original.archive.None? ==>
              host.Quiet() && err.None? && host.world == Advance(RetireShadow(u), old(host.world))
  {
    if original.active.None? {
      err := host.Check(ShadowOf(host.world, u) == Shadow(None, original.archive));
    } else {
      err := host.Check(ShadowOf(host.world, u) == Shadow(original.active, None));
      if err.None? {
        err := host.Change(Shadows, Advance(RetireShadow(u), host.world));
      }
    }
  }

  ghost predicate StillCaptured(shadows: seq<(UnitName, Shadow)>, from: nat, m: Manifest, w: World) {
    && |shadows| == |m|
    && (forall i | from <= i < |m| :: shadows[i] == (m[i].name, ShadowOf(w, m[i].name)))
    && (forall i | from <= i < |m| :: shadows[i].1.active.None? || shadows[i].1.archive.None?)
  }

  method RetireAll(host: Host, shadows: seq<(UnitName, Shadow)>, ghost m: Manifest) returns (err: Option<Exc>)
    requires ValidManifest(m)
    modifies host`world, host`script, host`nextId, host.guard`count
    ensures old(host.nextId) <= host.nextId
    ensures err.Some? ==> err.value.Exc? && old(host.nextId) <= err.value.id < host.nextId
    ensures err.None? ==> host.world == old(host.world).(shadows := host.world.shadows)
    ensures old(host.Quiet()) && StillCaptured(shadows, 0, m, old(host.world)) ==>
              host.Quiet() && err.None? && host.world == RunSteps(Retires(m), old(host.world))
  {
    err := None;
    var i := 0;
    while i < |shadows| && err.None?
      invariant i <= |shadows| && old(host.nextId) <= host.nextId
      invariant err.Some? ==> err.value.Exc? && old(host.nextId) <= err.value.id < host.nextId
      invariant err.None? ==> host.world == old(host.world).(shadows := host.world.shadows)
      invariant old(host.Quiet()) && StillCaptured(shadows, 0, m, old(host.world)) ==>
                  && host.Quiet() && err.None? && StillCaptured(shadows, i, m, host.world)
                  && RunSteps(Retires(m)[i..], host.world) == RunSteps(Retires(m), old(host.world))
    {
      if |shadows| == |m| {
        var step := RetireShadow(m[i].name);
        assert Retires(m)[i..][0] == step && Retires(m)[i..][1..] == Retires(m)[i + 1..];
      }
      err := RetireOne(host, shadows[i].0, shadows[i].1);
      i := i + 1;
    }
  }

  /** Files and shadows. */
  method ReplaceFiles(host: Host, m: Manifest, shadows: seq<(UnitName, Shadow)>) returns (err: Option<Exc>)
    requires ValidManifest(m)
    modifies host`world, host`script, host`nextId, host.guard`count
    ensures old(host.nextId) <= host.nextId
    ensures err.Some? ==> err.value.Exc? && old(host.nextId) <= err.value.id < host.nextId
    ensures old(host.Quiet()) && StillCaptured(shadows, 0, m, old(host.world)) ==>
              host.Quiet() && err.None? && host.world == RunSteps(Retires(m), RunSteps(Writes(m), old(host.world)))
  {
    WritesOnly(m, host.world);
    err := WriteUnits(host, m);
    if err.None? {
      err := RetireAll(host, shadows, m);
    }
  }

  /** Files, shadows and the manager's view of them. */
  method LoadUnits(host: Host, m: Manifest, mode: InstallMode, shadows: seq<(UnitName, Shadow)>)
    returns (err: Option<Exc>)
    requires ValidManifest(m)
    modifies host`world, host`script, host`nextId, host`log, host.guard`count
    ensures old(host.nextId) <= host.nextId
    ensures err.Some? ==> err.value.Exc? && old(host.nextId) <= err.value.id < host.nextId
    ensures host.log == old(host.log) || host.log == old(host.log) + [ReloadManager]
    ensures err.None? ==> host.log == old(host.log) + [ReloadManager]
    ensures err.None? ==> PayloadsProven(m, mode, host.world)
    ensures old(host.Quiet()) && StillCaptured(shadows, 0, m, old(host.world)) ==>
              && host.Quiet() && host.world == AfterLoad(m, old(host.world))
              && (err.None? <==> PayloadsProven(m, mode, host.world))
  {
    err := ReplaceFiles(host, m, shadows);
    if err.None? {
      err := host.Systemctl(ReloadManager, true);
      if err.None? {
        err := host.Check(PayloadsProven(m, mode, host.world));
      }
    }
  }

  /** A command that names no unit is not given. */
  function Given(c: Command): seq<Command> {
    if Named(c) == [] then [] else [c]
  }

  function LifecycleCommands(mode: InstallMode, m: Manifest): seq<Command> {
    Given(EnableUnitFiles(EnableNames(mode, EnableUnits(m))))
    + Given(RestartServices(RestartNames(mode, ImmediateRestartUnits(m))))
  }

  /** The commands of a whole apply phase. */
  function ApplyCommands(mode: InstallMode, m: Manifest): seq<Command> {
    [ReloadManager] + LifecycleCommands(mode, m)
  }

  /** The command names exactly the units that the flags of the manifest ask for. */
  ghost predicate ByFlags(mode: InstallMode, m: Manifest, c: Command) {
    match c
    case ReloadManager => true
    case EnableUnitFiles(units) => forall u :: u in units <==> ToEnable(mode, m, u)
    case RestartServices(units) => forall u :: u in units <==> ToRestart(mode, m, u)
    case _ => false
  }

  /** An enable and a restart command, each exactly if a flag asks for one, and naming exactly the flagged units. */
  lemma CommandsFollowFlags(mode: InstallMode, m: Manifest)
    ensures forall c | c in ApplyCommands(mode, m) :: ByFlags(mode, m, c)
    ensures (exists c :: c in ApplyCommands(mode, m) && c.EnableUnitFiles?) <==>
            exists i :: 0 <= i < |m| && IsToEnable(mode, m[i])
    ensures (exists c :: c in ApplyCommands(mode, m) && c.RestartServices?) <==>
            exists i :: 0 <= i < |m| && IsToRestart(mode, m[i])
    ensures ApplyCommands(mode, m)[0] == ReloadManager && |ApplyCommands(mode, m)| <= 3
  {
    var enable := EnableUnitFiles(EnableNames(mode, EnableUnits(m)));
    var restart := RestartServices(RestartNames(mode, ImmediateRestartUnits(m)));
    NamesFollowFlags(mode, m);
    AtMostThreeCommands(enable, restart);
    assert Named(enable) != [] ==> enable in ApplyCommands(mode, m);
    assert Named(restart) != [] ==> restart in ApplyCommands(mode, m);
  }

  lemma AtMostThreeCommands(enable: Command, restart: Command)
    ensures var all := [ReloadManager] + (Given(enable) + Given(restart));
            && all[0] == ReloadManager && |all| <= 3
            && forall c :: c in all <==>
                           c == ReloadManager || (c == enable && Named(enable) != [])
                           || (c == restart && Named(restart) != [])
  {
  }

  lemma NamesFollowFlags(mode: InstallMode, m: Manifest)
    ensures ByFlags(mode, m, EnableUnitFiles(EnableNames(mode, EnableUnits(m))))
    ensures ByFlags(mode, m, RestartServices(RestartNames(mode, ImmediateRestartUnits(m))))
    ensures EnableNames(mode, EnableUnits(m)) != [] <==> exists i :: 0 <= i < |m| && IsToEnable(mode, m[i])
    ensures RestartNames(mode, ImmediateRestartUnits(m)) != [] <==> exists i :: 0 <= i < |m| && IsToRestart(mode, m[i])
  {
    var enables, restarts := EnableNames(mode, EnableUnits(m)), RestartNames(mode, ImmediateRestartUnits(m));
    forall u
      ensures u in enables <==> ToEnable(mode, m, u)
      ensures u in restarts <==> ToRestart(mode, m, u)
    {
      EnablesFollowFlags(mode, m, u);
      RestartsFollowFlags(mode, m, u);
    }
    assert enables != [] ==> enables[0] in enables;
    assert restarts != [] ==> restarts[0] in restarts;
    forall i | 0 <= i < |m|
      ensures IsToEnable(mode, m[i]) ==> m[i].name in enables
      ensures IsToRestart(mode, m[i]) ==> m[i].name in restarts
    {
    }
  }

  /** The log has grown by a part of the commands, from their first one on. */
  predicate Within(before: seq<Command>, after: seq<Command>, commands: seq<Command>) {
    before <= after <= before + commands
  }

  method EnableAll(host: Host, mode: InstallMode, names: seq<UnitName>) returns (err: Option<Exc>)
    requires Allowed(mode, EnableUnitFiles(names))
    modifies host`world, host`script, host`nextId, host`log, host.guard`count
    ensures old(host.nextId) <= host.nextId
    ensures err.Some? ==> err.value.Exc? && old(host.nextId) <= err.value.id < host.nextId
    ensures OnlyAllowed(mode, old(host.log), host.log)
    ensures err.None? ==> host.world == old(host.world).(enabled := host.world.enabled)
    ensures host.log == old(host.log) + Given(EnableUnitFiles(names))
    ensures old(host.Quiet()) ==> host.Quiet() && err.None? && host.world == RunSteps(Enables(names), old(host.world))
  {
    err := None;
    if names != [] {
      EnablesOnly(names, host.world);
      err := host.Systemctl(EnableUnitFiles(names), true);
    }
  }

  method RestartAll(host: Host, mode: InstallMode, names: seq<UnitName>) returns (err: Option<Exc>)
    requires names != [] ==> Allowed(mode, RestartServices(names))
    modifies host`world, host`script, host`nextId, host`log, host.guard`count
    ensures old(host.nextId) <= host.nextId
    ensures err.Some? ==> err.value.Exc? && old(host.nextId) <= err.value.id < host.nextId
    ensures OnlyAllowed(mode, old(host.log), host.log)
    ensures err.None? ==>
              host.world == old(host.world).(running := host.world.running, processes := host.world.processes)
    ensures names == [] ==> host.world == old(host.world)
    ensures host.log == old(host.log) + Given(RestartServices(names))
    ensures old(host.Quiet()) ==> host.Quiet() && err.None? && host.world == RunSteps(Restarts(names), old(host.world))
  {
    err := None;
    if names != [] {
      RestartsOnly(names, host.world);
      err := host.Systemctl(RestartServices(names), true);
    }
  }

  /** No restart in a passive install; a stage enables and restarts no deferred unit. */
  lemma LifecycleIsAllowed(mode: InstallMode, m: Manifest)
    ensures Allowed(mode, EnableUnitFiles(EnableNames(mode, EnableUnits(m))))
    ensures var restarts := RestartNames(mode, ImmediateRestartUnits(m));
            restarts != [] ==> Allowed(mode, RestartServices(restarts))
  {
  }

  method RunLifecycleCommands(host: Host, m: Manifest, mode: InstallMode) returns (err: Option<Exc>)
    modifies host`world, host`script, host`nextId, host`log, host.guard`count
    ensures old(host.nextId) <= host.nextId
    ensures err.Some? ==> err.value.Exc? && old(host.nextId) <= err.value.id < host.nextId
    ensures OnlyAllowed(mode, old(host.log), host.log)
    ensures err.None? ==> host.world == old(host.world).(
                            enabled := host.world.enabled, running := host.world.running,
                            processes := host.world.processes)
    ensures err.None? && StaysPassive(mode) ==> host.world == old(host.world).(enabled := host.world.enabled)
    ensures Within(old(host.log), host.log, LifecycleCommands(mode, m))
    ensures err.None? ==> host.log == old(host.log) + LifecycleCommands(mode, m)
    ensures old(host.Quiet()) ==> host.Quiet() && err.None? && host.world == AfterActivation(m, mode, old(host.world))
  {
    LifecycleIsAllowed(mode, m);
    err := EnableAll(host, mode, EnableNames(mode, EnableUnits(m)));
    if err.None? {
      ghost var middle := host.log;
      err := RestartAll(host, mode, RestartNames(mode, ImmediateRestartUnits(m)));
      AllowedInTurn(mode, old(host.log), middle, host.log);
    }
  }

  method VerifyEnabled(host: Host, names: seq<UnitName>) returns (err: Option<Exc>)
    modifies host`script, host`nextId, host.guard`count
    ensures old(host.nextId) <= host.nextId
    ensures err.Some? ==> err.value.Exc? && old(host.nextId) <= err.value.id < host.nextId
    ensures err.None? ==> forall u | u in names :: u in host.world.enabled
    ensures old(host.Quiet()) ==> host.Quiet() && ((forall u | u in names :: u in host.world.enabled) ==> err.None?)
  {
    err := None;
    var i := 0;
    while i < |names| && err.None?
      invariant i <= |names| && old(host.nextId) <= host.nextId
      invariant err.Some? ==> err.value.Exc? && old(host.nextId) <= err.value.id < host.nextId
      invariant err.None? ==> forall j | 0 <= j < i :: names[j] in host.world.enabled
      invariant old(host.Quiet()) ==> host.Quiet() && ((forall u | u in names :: u in host.world.enabled) ==> err.None?)
    {
      assert names[i] in names;
      err := host.Check(names[i] in host.world.enabled);
      i := i + 1;
    }
  }

  method VerifyProcesses(host: Host, processes: seq<(UnitName, nat)>) returns (err: Option<Exc>)
    modifies host`script, host`nextId, host.guard`count
    ensures old(host.nextId) <= host.nextId
    ensures err.Some? ==> err.value.Exc? && old(host.nextId) <= err.value.id < host.nextId
    ensures err.None? ==> forall x | x in processes :: ProcessOf(host.world, x.0) == x.1
    ensures old(host.Quiet()) ==>
              host.Quiet() && ((forall x | x in processes :: ProcessOf(host.world, x.0) == x.1) ==> err.None?)
  {
    err := None;
    var i := 0;
    while i < |processes| && err.None?
      invariant i <= |processes| && old(host.nextId) <= host.nextId
      invariant err.Some? ==> err.value.Exc? && old(host.nextId) <= err.value.id < host.nextId
      invariant err.None? ==> forall j | 0 <= j < i :: ProcessOf(host.world, processes[j].0) == processes[j].1
      invariant old(host.Quiet()) ==>
                  host.Quiet() && ((forall x | x in processes :: ProcessOf(host.world, x.0) == x.1) ==> err.None?)
    {
      assert processes[i] in processes;
      err := host.Check(ProcessOf(host.world, processes[i].0) == processes[i].1);
      i := i + 1;
    }
  }

  predicate AllRetired(shadows: seq<(UnitName, Shadow)>, w: World) {
    forall i | 0 <= i < |shadows| :: ShadowOf(w, shadows[i].0) == Retired(shadows[i].1)
  }

  lemma ActivatesByName(m: Manifest, mode: InstallMode, w: World)
    ensures Activates(m, mode, w) <==>
            && (forall u | u in EnableNames(mode, EnableUnits(m)) :: u in w.enabled)
            && (forall u | u in RestartNames(mode, ImmediateRestartUnits(m)) :: u in w.running)
  {
    forall u
      ensures u in EnableNames(mode, EnableUnits(m)) <==> ToEnable(mode, m, u)
      ensures u in RestartNames(mode, ImmediateRestartUnits(m)) <==> ToRestart(mode, m, u)
    {
      EnablesFollowFlags(mode, m, u);
      RestartsFollowFlags(mode, m, u);
    }
  }

  /** The proofs between the lifecycle commands and the receipt, in their order. */
  method VerifyInstalled(host: Host, m: Manifest, mode: InstallMode, c: Captured) returns (err: Option<Exc>)
    modifies host`script, host`nextId, host.guard`count
    ensures old(host.nextId) <= host.nextId
    ensures err.Some? ==> err.value.Exc? && old(host.nextId) <= err.value.id < host.nextId
    ensures err.None? ==> Verified(m, mode, c, host.world)
    ensures old(host.Quiet()) ==> host.Quiet() && (Verified(m, mode, c, host.world) ==> err.None?)
  {
    ActivatesByName(m, mode, host.world);
    err := VerifyEnabled(host, EnableNames(mode, EnableUnits(m)));
    if err.Some? { return; }
    var restarts := RestartNames(mode, ImmediateRestartUnits(m));
    if restarts != [] {
      err := host.Check(forall u | u in restarts :: u in host.world.running);
      if err.Some? { return; }
    }
    err := host.Check(AllRetired(c.shadows, host.world));
    if err.Some? { return; }
    err := VerifyProcesses(host, c.processes);
  }

  ghost predicate Verified(m: Manifest, mode: InstallMode, c: Captured, w: World) {
    && Activates(m, mode, w)
    && AllRetired(c.shadows, w)
    && (forall x | x in c.processes :: ProcessOf(w, x.0) == x.1)
  }

  function WithReceipt(content: Option<nat>, w: World): World {
    w.(receipt := if content.Some? then content else w.receipt)
  }

  lemma AppliedInStages(m: Manifest, mode: InstallMode, receipt: nat, c: Captured, v: World)
    requires CapturedFrom(c, m, mode, v) && (WritesReceipt(mode) ==> c.receiptContent == Some(receipt))
    ensures RunSteps(ApplySteps(m, mode, receipt), v)
            == WithReceipt(c.receiptContent, AfterActivation(m, mode, AfterLoad(m, v)))
  {
    ApplyComposes(m, mode, receipt, v);
  }

  method WriteStageReceipt(host: Host, content: Option<nat>) returns (err: Option<Exc>)
    modifies host`world, host`script, host`nextId, host.guard`count
    ensures old(host.nextId) <= host.nextId
    ensures err.Some? ==> err.value.Exc? && old(host.nextId) <= err.value.id < host.nextId
    ensures err.None? ==> host.world == old(host.world).(receipt := host.world.receipt)
    ensures err.None? && content.Some? ==> host.world.receipt == content
    ensures old(host.Quiet()) ==>
              && host.Quiet() && err.None?
              && host.world == WithReceipt(content, old(host.world))
  {
    err := None;
    if content.Some? {
      err := host.Change(Receipt, Advance(WriteReceipt(content.value), host.world));
      if err.Some? { return; }
      err := host.Check(host.world.receipt == content);
    }
  }

  method LoadAndActivate(host: Host, m: Manifest, mode: InstallMode, shadows: seq<(UnitName, Shadow)>)
    returns (err: Option<Exc>)
    requires ValidManifest(m)
    modifies host`world, host`script, host`nextId, host`log, host.guard`count
    ensures old(host.nextId) <= host.nextId
    ensures err.Some? ==> err.value.Exc? && old(host.nextId) <= err.value.id < host.nextId
    ensures OnlyAllowed(mode, old(host.log), host.log)
    ensures Within(old(host.log), host.log, ApplyCommands(mode, m))
    ensures err.None? ==> host.log == old(host.log) + ApplyCommands(mode, m)
    ensures err.None? ==> PayloadsProven(m, mode, host.world)
    ensures old(host.Quiet()) && StillCaptured(shadows, 0, m, old(host.world)) ==>
              host.Quiet() && (err.None? <==> Verifiable(m, mode, old(host.world)))
    ensures old(host.Quiet()) && StillCaptured(shadows, 0, m, old(host.world)) && err.None? ==>
              host.world == AfterActivation(m, mode, AfterLoad(m, old(host.world)))
  {
    LoadIsProven(m, mode, host.world);
    err := LoadUnits(host, m, mode, shadows);
    assert OnlyAllowed(mode, old(host.log), host.log);
    if err.None? {
      ghost var middle := host.log;
      err := RunLifecycleCommands(host, m, mode);
      AllowedInTurn(mode, old(host.log), middle, host.log);
      CommandsInTurn(old(host.log), host.log, ReloadManager, LifecycleCommands(mode, m));
    }
  }

  lemma CommandsInTurn(before: seq<Command>, after: seq<Command>, first: Command, rest: seq<Command>)
    requires Within(before + [first], after, rest)
    ensures Within(before, after, [first] + rest)
    ensures after == before + [first] + rest ==> after == before + ([first] + rest)
  {
    assert before + [first] + rest == before + ([first] + rest);
  }

  lemma AllowedInTurn(mode: InstallMode, before: seq<Command>, middle: seq<Command>, after: seq<Command>)
    requires OnlyAllowed(mode, before, middle) && OnlyAllowed(mode, middle, after)
    ensures OnlyAllowed(mode, before, after)
  {
  }

  /** The apply phase up to the receipt. */
  method ActivateAndVerify(host: Host, m: Manifest, mode: InstallMode, c: Captured) returns (err: Option<Exc>)
    requires ValidManifest(m) && CapturedFrom(c, m, mode, host.world)
    modifies host`world, host`script, host`nextId, host`log, host.guard`count
    ensures old(host.nextId) <= host.nextId
    ensures err.Some? ==> err.value.Exc? && old(host.nextId) <= err.value.id < host.nextId
    ensures OnlyAllowed(mode, old(host.log), host.log)
    ensures Within(old(host.log), host.log, ApplyCommands(mode, m))
    ensures err.None? ==> host.log == old(host.log) + ApplyCommands(mode, m)
    ensures err.None? ==> PayloadsProven(m, mode, host.world) && Verified(m, mode, c, host.world)
    ensures old(host.Quiet()) ==> host.Quiet() && (err.None? <==> Verifiable(m, mode, old(host.world)))
    ensures old(host.Quiet()) && err.None? ==>
              host.world == AfterActivation(m, mode, AfterLoad(m, old(host.world)))
  {
    assert StillCaptured(c.shadows, 0, m, host.world);
    ActivatedIsVerified(m, mode, c, host.world);
    err := LoadAndActivate(host, m, mode, c.shadows);
    if err.None? {
      err := VerifyInstalled(host, m, mode, c);
    }
  }

  /**
   The apply phase. Every changing port may lie about its work within its own component, and still the phase
   does not end without an exception unless the manifest is installed. On a host that interferes with nothing
   it ends so exactly if the verifier of the mode can accept the manifest there, and then all its steps have been
   taken and no others.
   */
  method ApplyInstall(host: Host, m: Manifest, mode: InstallMode, receipt: nat, c: Captured) returns (err: Option<Exc>)
    requires ValidManifest(m) && CapturedFrom(c, m, mode, host.world)
    requires WritesReceipt(mode) ==> c.receiptContent == Some(receipt)
    modifies host`world, host`script, host`nextId, host`log, host.guard`count
    ensures old(host.nextId) <= host.nextId
    ensures err.Some? ==> err.value.Exc? && old(host.nextId) <= err.value.id < host.nextId
    ensures OnlyAllowed(mode, old(host.log), host.log)
    ensures Within(old(host.log), host.log, ApplyCommands(mode, m))
    ensures err.None? ==> host.log == old(host.log) + ApplyCommands(mode, m)
    ensures err.None? ==> Installed(m, mode, receipt, old(host.world), host.world)
    ensures old(host.Quiet()) ==> host.Quiet() && (err.None? <==> Verifiable(m, mode, old(host.world)))
    ensures old(host.Quiet()) && err.None? ==> IsApplied(m, mode, receipt, old(host.world), host.world)
  {
    ghost var v := host.world;
    AppliedByStages(m, mode, receipt, c, v);
    err := ActivateAndVerify(host, m, mode, c);
    if err.None? {
      ghost var verified := host.world;
      err := WriteStageReceipt(host, c.receiptContent);
      if err.None? {
        VerifiedIsInstalled(m, mode, receipt, c, v, verified, host.world);
      }
    }
  }

  /** `w` is the world after all steps of the apply phase, and no others. */
  ghost predicate IsApplied(m: Manifest, mode: InstallMode, receipt: nat, v: World, w: World) {
    forall steps | steps == ApplySteps(m, mode, receipt) :: w == RunSteps(steps, v)
  }

  lemma AppliedByStages(m: Manifest, mode: InstallMode, receipt: nat, c: Captured, v: World)
    requires CapturedFrom(c, m, mode, v) && (WritesReceipt(mode) ==> c.receiptContent == Some(receipt))
    ensures IsApplied(m, mode, receipt, v, WithReceipt(c.receiptContent, AfterActivation(m, mode, AfterLoad(m, v))))
  {
    AppliedInStages(m, mode, receipt, c, v);
  }

  /** From `w` the plan frozen in `v` brings every component back, and is proven. */
  ghost predicate Undoable(m: Manifest, mode: InstallMode, v: World, w: World) {
    Footprint(m, mode, v, w) && NewUnitsInPlace(m, mode, v, w)
  }

  lemma AppliedIsUndoable(m: Manifest, mode: InstallMode, receipt: nat, v: World)
    requires ValidManifest(m)
    ensures Undoable(m, mode, v, RunSteps(ApplySteps(m, mode, receipt), v))
  {
    var n := |ApplySteps(m, mode, receipt)|;
    assert ApplySteps(m, mode, receipt)[..n] == ApplySteps(m, mode, receipt);
    PrefixKeepsFootprint(m, mode, receipt, v, n);
    NewUnitsByIndex(m, mode, v, RunSteps(ApplySteps(m, mode, receipt), v), n);
  }

  lemma ActivatedIsVerified(m: Manifest, mode: InstallMode, c: Captured, v: World)
    requires ValidManifest(m) && CapturedFrom(c, m, mode, v)
    ensures Verified(m, mode, c, AfterActivation(m, mode, AfterLoad(m, v)))
  {
    LoadInstalls(m, v);
    ActivationInstalls(m, mode, AfterLoad(m, v));
    VerifiedInStages(m, mode, c, v, AfterLoad(m, v), AfterActivation(m, mode, AfterLoad(m, v)));
  }

  lemma VerifiedInStages(m: Manifest, mode: InstallMode, c: Captured, v: World, loaded: World, activated: World)
    requires CapturedFrom(c, m, mode, v)
    requires LoadedFrom(m, v, loaded) && ActivatedFrom(m, mode, loaded, activated)
    ensures Verified(m, mode, c, activated)
  {
    LifecycleActivates(m, mode, loaded, activated);
    RetiredInStages(m, mode, c, v, loaded, activated);
    ProcessesInStages(m, mode, c, v, loaded, activated);
  }

  lemma RetiredInStages(m: Manifest, mode: InstallMode, c: Captured, v: World, loaded: World, activated: World)
    requires CapturedFrom(c, m, mode, v)
    requires LoadedFrom(m, v, loaded) && activated.shadows == loaded.shadows
    ensures AllRetired(c.shadows, activated)
  {
    forall i | 0 <= i < |c.shadows|
      ensures ShadowOf(activated, c.shadows[i].0) == Retired(c.shadows[i].1)
    {
      assert Names(m)[i] == m[i].name;
    }
  }

  lemma ProcessesInStages(m: Manifest, mode: InstallMode, c: Captured, v: World, loaded: World, activated: World)
    requires CapturedFrom(c, m, mode, v)
    requires loaded.processes == v.processes && (StaysPassive(mode) ==> activated.processes == loaded.processes)
    ensures forall x | x in c.processes :: ProcessOf(activated, x.0) == x.1
  {
  }

  lemma VerifiedIsInstalled(m: Manifest, mode: InstallMode, receipt: nat, c: Captured, v: World, w: World, t: World)
    requires CapturedFrom(c, m, mode, v)
    requires PayloadsProven(m, mode, w) && Verified(m, mode, c, w)
    requires t == w.(receipt := t.receipt) && (WritesReceipt(mode) ==> t.receipt == Some(receipt))
    ensures Installed(m, mode, receipt, v, t)
  {
    forall u | u in Names(m)
      ensures ShadowOf(t, u) == Retired(ShadowOf(v, u))
      ensures ProvesProcesses(mode) ==> ProcessOf(t, u) == ProcessOf(v, u)
    {
      var i :| 0 <= i < |m| && Names(m)[i] == u;
      assert c.shadows[i] == (u, ShadowOf(v, u));
      if ProvesProcesses(mode) {
        assert c.processes[i] in c.processes;
      }
    }
  }

  // --- the transaction ----------------------------------------------------------------------

  /** `boundary`: the proof of the install mode holds; `tolerant`: see Execute. */
  datatype Conditions = Conditions(boundary: bool, tolerant: bool)

  /** What the transaction knows when it has left the binding lock. */
  datatype Course = Course(
    captured: Option<Captured>,
    mutated: bool,
    bodyError: Option<Exc>,
    scopeError: Option<Exc>,
    compensation: Option<Compensation>,
    report: Option<seq<UnitName>>)

  /** Nothing interferes, and neither the read-only phase nor the verifier of the mode has anything to object to. */
  ghost predicate Untroubled(host: Host, m: Manifest, mode: InstallMode, conditions: Conditions)
    reads host, host.guard
  {
    host.Quiet() && Capturable(m, mode, host.world) && Verifiable(m, mode, host.world) && conditions.boundary
  }

  const UNTOUCHED: Course := Course(None, false, None, None, None, None)

  function ReportDeferred(mode: InstallMode, m: Manifest): seq<UnitName> {
    if StaysPassive(mode) then RestartUnits(m) else Deferred(mode)
  }

  /** The units whose restart the install leaves to others. */
  ghost predicate DeferredByFlags(mode: InstallMode, m: Manifest, deferred: seq<UnitName>) {
    forall u :: u in deferred <==>
                match mode
                case Normal => false
                case MaintenanceStage => !u.OtherUnit?
                case _ => exists i :: 0 <= i < |m| && m[i].name == u && m[i].restart
  }

  lemma ReportFollowsFlags(mode: InstallMode, m: Manifest)
    ensures DeferredByFlags(mode, m, ReportDeferred(mode, m))
  {
    forall u
      ensures u in RestartUnits(m) <==> exists i :: 0 <= i < |m| && m[i].name == u && m[i].restart
    {
      UnitsAreChosenByFlag(m, u);
    }
  }

  predicate Compensated(course: Course) {
    course.compensation.Some? && course.compensation.value.proven
  }

  /** How the world `w` relates to the world `v` before the transaction, given its course so far. */
  ghost predicate Accounted(m: Manifest, mode: InstallMode, receipt: nat, v: World, w: World, course: Course) {
    && (!course.mutated ==> w == v && course.compensation.None? && course.report.None?)
    && (course.mutated ==> course.captured.Some? && CapturedFrom(course.captured.value, m, mode, v))
    && (course.mutated ==> ModeFits(mode, m))
    && (course.mutated && course.bodyError.None? ==>
          && course.compensation.None?
          && course.report == Some(ReportDeferred(mode, m))
          && Installed(m, mode, receipt, v, w))
    && (course.mutated && course.bodyError.Some? ==>
          course.compensation.Some? && (Compensated(course) ==> SameComponents(m, mode, v, w)))
    && (course.scopeError.Some? ==> course.bodyError.Some?)
  }

  ghost predicate ErrorsAreOld(course: Course, nextId: nat) {
    && (course.bodyError.Some? ==> course.bodyError.value.Exc? && course.bodyError.value.id < nextId)
    && (course.scopeError.Some? ==> course.scopeError.value.Exc? && course.scopeError.value.id < nextId)
  }

  method ApplyAndConfirm(host: Host, m: Manifest, mode: InstallMode, receipt: nat, c: Captured, conditions: Conditions)
    returns (err: Option<Exc>, report: Option<seq<UnitName>>)
    requires ValidManifest(m) && CapturedFrom(c, m, mode, host.world)
    requires WritesReceipt(mode) ==> c.receiptContent == Some(receipt)
    modifies host`world, host`script, host`nextId, host`log, host.guard`count
    ensures old(host.nextId) <= host.nextId
    ensures err.Some? ==> err.value.Exc? && err.value.id < host.nextId
    ensures OnlyAllowed(mode, old(host.log), host.log)
    ensures err.None? ==> host.log == old(host.log) + ApplyCommands(mode, m)
    ensures err.None? ==>
              Installed(m, mode, receipt, old(host.world), host.world) && report == Some(ReportDeferred(mode, m))
    ensures old(host.Quiet()) ==> host.Quiet()
    ensures old(host.Quiet()) && conditions.boundary && Verifiable(m, mode, old(host.world)) ==>
              err.None? && IsApplied(m, mode, receipt, old(host.world), host.world)
  {
    report := None;
    err := ApplyInstall(host, m, mode, receipt, c);
    if err.None? {
      report := Some(ReportDeferred(mode, m));
      err := ConfirmBoundary(host, conditions);
    }
  }

  /** The proof of the install mode, and the signals that were held back during the apply phase. */
  method ConfirmBoundary(host: Host, conditions: Conditions) returns (err: Option<Exc>)
    modifies host`script, host`nextId, host.guard`count
    ensures old(host.nextId) <= host.nextId
    ensures err.Some? ==> err.value.Exc? && err.value.id < host.nextId
    ensures err.None? ==> conditions.boundary
    ensures old(host.Quiet()) ==> host.Quiet() && (conditions.boundary ==> err.None?)
  {
    err := host.Check(conditions.boundary);
    if err.None? {
      err := host.RaiseIfPending();
    }
  }

  /** Everything before the first change; from the end of it on SIGINT is only counted. */
  method Begin(host: Host, m: Manifest, mode: InstallMode, receipt: nat) returns (err: Option<Exc>, c: Captured)
    requires host.Kept()
    modifies host`script, host`nextId, host.guard
    ensures host.Kept()
    ensures old(host.nextId) <= host.nextId
    ensures err.Some? ==> err.value.Exc? && err.value.id < host.nextId
    ensures err.None? ==> host.guard.armed && CapturedFrom(c, m, mode, host.world) && ModeFits(mode, m)
    ensures err.None? && WritesReceipt(mode) ==> c.receiptContent == Some(receipt)
    ensures old(host.Quiet()) ==> host.Quiet() && (Capturable(m, mode, host.world) ==> err.None?)
  {
    c := Captured([], [], [], None, None, []);
    err := host.Check(true); // the runtime binding
    if err.Some? { return; }
    err := host.Check(true); // the managed install contract
    if err.Some? { return; }
    err := host.Check(true); // the preflight of the target user
    if err.Some? { return; }
    err := host.Arm();
    if err.Some? { return; }
    c, err := Prepare(host, m, mode, receipt);
    if err.Some? { return; }
    err := host.RaiseIfPending();
  }

  method CompensateBody(host: Host, m: Manifest, mode: InstallMode, ghost receipt: nat, c: Captured,
                        conditions: Conditions, ghost v: World)
    returns (result: Compensation)
    requires ValidManifest(m) && CapturedFrom(c, m, mode, v)
    modifies host`world, host`script, host`nextId, host`log, host.guard`count
    ensures old(host.nextId) <= host.nextId
    ensures OnlyAllowed(mode, old(host.log), host.log)
    ensures result.proven ==> SameComponents(m, mode, v, host.world)
    ensures old(host.Quiet()) && conditions.boundary && IsApplied(m, mode, receipt, v, old(host.world)) ==>
              host.Quiet() && result.proven
  {
    if IsApplied(m, mode, receipt, v, host.world) {
      AppliedIsUndoable(m, mode, receipt, v);
      assert host.world == RunSteps(ApplySteps(m, mode, receipt), v);
      var t := PlanBringsComponentsBack(c, m, mode, v, host.world, conditions.tolerant);
    }
    result := Compensate(host, c, mode, conditions.tolerant, conditions.boundary);
    PlanCommandsAreAllowed(c, m, mode, v);
    if result.proven {
      ProvenMeansBack(c, m, mode, v, host.world);
    }
  }

  /** The apply phase is complete, nothing has interfered with it, and it can be undone. */
  ghost predicate LeftComplete(host: Host, m: Manifest, mode: InstallMode, receipt: nat, course: Course,
                               conditions: Conditions, v: World)
    reads host, host.guard
  {
    && host.Quiet() && host.guard.armed && conditions.boundary
    && course.mutated && course.bodyError.None? && IsApplied(m, mode, receipt, v, host.world)
  }

  /** A course without an error has given exactly the commands of an apply phase. */
  predicate Commanded(m: Manifest, mode: InstallMode, course: Course, before: seq<Command>, after: seq<Command>) {
    course.mutated && course.bodyError.None? ==> after == before + ApplyCommands(mode, m)
  }

  lemma UntouchedIsAccounted(m: Manifest, mode: InstallMode, receipt: nat, v: World, err: Option<Exc>)
    ensures Accounted(m, mode, receipt, v, v, UNTOUCHED.(bodyError := err))
  {
  }

  ghost predicate Logged(m: Manifest, mode: InstallMode, course: Course, before: seq<Command>, after: seq<Command>) {
    OnlyAllowed(mode, before, after) && Commanded(m, mode, course, before, after)
  }

  /** The body under both locks: a failure after the first change is compensated before the locks are left. */
  method RunBody(host: Host, m: Manifest, mode: InstallMode, receipt: nat, conditions: Conditions,
                 ghost untroubled: bool)
    returns (course: Course)
    requires ValidManifest(m)
    requires host.Kept() && (untroubled ==> Untroubled(host, m, mode, conditions))
    modifies host`world, host`script, host`nextId, host`log, host.guard
    ensures host.Kept()
    ensures old(host.nextId) <= host.nextId
    ensures Logged(m, mode, course, old(host.log), host.log)
    ensures Accounted(m, mode, receipt, old(host.world), host.world, course)
    ensures ErrorsAreOld(course, host.nextId) && course.scopeError.None?
    ensures course.mutated ==> host.guard.armed
    ensures course.bodyError.None? ==> course.mutated
    ensures untroubled ==>
              LeftComplete(host, m, mode, receipt, course, conditions, old(host.world))
  {
    var err, c := Begin(host, m, mode, receipt);
    course := GoOn(host, m, mode, receipt, err, c, conditions);
  }

  /** What follows the read-only phase: nothing if it has failed. */
  method GoOn(host: Host, m: Manifest, mode: InstallMode, receipt: nat, err: Option<Exc>, c: Captured,
              conditions: Conditions)
    returns (course: Course)
    requires ValidManifest(m)
    requires err.Some? ==> err.value.Exc? && err.value.id < host.nextId
    requires err.None? ==> host.guard.armed && CapturedFrom(c, m, mode, host.world) && ModeFits(mode, m)
    requires err.None? && WritesReceipt(mode) ==> c.receiptContent == Some(receipt)
    modifies host`world, host`script, host`nextId, host`log, host.guard`count
    ensures old(host.nextId) <= host.nextId
    ensures Logged(m, mode, course, old(host.log), host.log)
    ensures Accounted(m, mode, receipt, old(host.world), host.world, course)
    ensures ErrorsAreOld(course, host.nextId) && course.scopeError.None?
    ensures course.mutated <==> err.None?
    ensures course.bodyError.None? ==> course.mutated
    ensures old(host.Quiet()) && err.None? && conditions.boundary && Verifiable(m, mode, old(host.world)) ==>
              LeftComplete(host, m, mode, receipt, course, conditions, old(host.world))
  {
    if err.Some? {
      course := UNTOUCHED.(bodyError := err);
      UntouchedIsAccounted(m, mode, receipt, host.world, err);
    } else {
      course := ApplyOrCompensate(host, m, mode, receipt, c, conditions);
    }
  }

  /** From the first change on. */
  method ApplyOrCompensate(host: Host, m: Manifest, mode: InstallMode, receipt: nat, c: Captured,
                           conditions: Conditions)
    returns (course: Course)
    requires ValidManifest(m) && CapturedFrom(c, m, mode, host.world) && ModeFits(mode, m)
    requires WritesReceipt(mode) ==> c.receiptContent == Some(receipt)
    modifies host`world, host`script, host`nextId, host`log, host.guard`count
    ensures old(host.nextId) <= host.nextId
    ensures Logged(m, mode, course, old(host.log), host.log)
    ensures Accounted(m, mode, receipt, old(host.world), host.world, course)
    ensures ErrorsAreOld(course, host.nextId) && course.scopeError.None? && course.mutated
    ensures old(host.Quiet()) && host.guard.armed && conditions.boundary && Verifiable(m, mode, old(host.world)) ==>
              LeftComplete(host, m, mode, receipt, course, conditions, old(host.world))
  {
    ghost var v, before := host.world, host.log;
    var err, report := ApplyAndConfirm(host, m, mode, receipt, c, conditions);
    course := Course(Some(c), true, err, None, None, report);
    if err.Some? {
      ghost var middle := host.log;
      course := CompensateCourse(host, m, mode, receipt, course, conditions, v);
      AllowedInTurn(mode, before, middle, host.log);
    }
  }

  /** Adds a compensation to a course that has failed after the first change. */
  method CompensateCourse(host: Host, m: Manifest, mode: InstallMode, receipt: nat, failed: Course,
                          conditions: Conditions, ghost v: World)
    returns (course: Course)
    requires ValidManifest(m) && failed.mutated && failed.bodyError.Some? && failed.compensation.None?
    requires failed.captured.Some? && CapturedFrom(failed.captured.value, m, mode, v) && ModeFits(mode, m)
    modifies host`world, host`script, host`nextId, host`log, host.guard`count
    ensures old(host.nextId) <= host.nextId
    ensures OnlyAllowed(mode, old(host.log), host.log)
    ensures Accounted(m, mode, receipt, v, host.world, course)
    ensures course == failed.(compensation := course.compensation)
    ensures old(host.Quiet()) && conditions.boundary && IsApplied(m, mode, receipt, v, old(host.world)) ==>
              host.Quiet() && Compensated(course)
  {
    var result := CompensateBody(host, m, mode, receipt, failed.captured.value, conditions, v);
    course := failed.(compensation := Some(result));
  }

  /** Without a signal, leaving the binding lock raises an exception of its own. */
  predicate BindingExitFails(exits: seq<Exit>) {
    exits != [] && exits[0].fault.Some? && exits[0].signals == 0
  }

  /** The binding lock failed after a complete apply phase, and all of it has been undone. */
  predicate FailedInScope(course: Course, err: Option<Exc>, kind: Kind) {
    && course.mutated && Compensated(course)
    && err.Some? && err.value.Exc? && err.value.kind == kind
    && course.scopeError == err && course.bodyError == err
  }

  /** What came out of the binding lock, if it did not come out of the body. */
  predicate FailedOutside(body: Course, err: Option<Exc>) {
    err.Some? && err != body.bodyError
  }

  function WithScopeError(body: Course, err: Option<Exc>): Course {
    body.(scopeError := err, bodyError := if body.bodyError.None? then err else body.bodyError)
  }

  /** An exception that did not come out of the body comes from the binding lock; it is compensated as well. */
  method SettleScope(host: Host, m: Manifest, mode: InstallMode, receipt: nat, body: Course, err: Option<Exc>,
                     conditions: Conditions, ghost v: World, ghost before: seq<Command>)
    returns (course: Course)
    requires ValidManifest(m) && Accounted(m, mode, receipt, v, host.world, body) && body.scopeError.None?
    requires Logged(m, mode, body, before, host.log)
    modifies host`world, host`script, host`nextId, host`log, host.guard`count
    ensures old(host.nextId) <= host.nextId
    ensures host.guard.armed == old(host.guard.armed) && host.Kept() == old(host.Kept())
    ensures Logged(m, mode, course, before, host.log)
    ensures Accounted(m, mode, receipt, v, host.world, course)
    ensures !FailedOutside(body, err) ==> course == body && old(host.Quiet()) == host.Quiet()
    ensures !FailedOutside(body, err) ==> host.world == old(host.world)
    ensures FailedOutside(body, err) ==> course == WithScopeError(body, err).(compensation := course.compensation)
    ensures old(host.Quiet()) && conditions.boundary && IsApplied(m, mode, receipt, v, old(host.world)) ==>
              host.Quiet() && (FailedOutside(body, err) && body.mutated && body.bodyError.None? ==> Compensated(course))
  {
    course := body;
    if FailedOutside(body, err) {
      course := WithScopeError(body, err);
      if course.mutated && course.compensation.None? {
        ghost var middle := host.log;
        course := CompensateCourse(host, m, mode, receipt, course, conditions, v);
        AllowedInTurn(mode, before, middle, host.log);
      }
    }
  }

  /** What came out of the binding lock is known: it is the exception of the body, or that of the lock. */
  predicate Explains(course: Course, err: Option<Exc>) {
    && (err.Some? ==> err == course.bodyError || err == course.scopeError)
    && (course.scopeError.Some? ==> err == course.scopeError)
  }

  method LeaveBindingLock(host: Host, m: Manifest, mode: InstallMode, receipt: nat, body: Course,
                          conditions: Conditions, ghost v: World, ghost before: seq<Command>)
    returns (course: Course, err: Option<Exc>)
    requires ValidManifest(m) && Accounted(m, mode, receipt, v, host.world, body) && body.scopeError.None?
    requires ErrorsAreOld(body, host.nextId) && Logged(m, mode, body, before, host.log)
    modifies host`world, host`script, host`exits, host`nextId, host`log, host.guard`count
    ensures old(host.nextId) <= host.nextId
    ensures host.guard.armed == old(host.guard.armed) && host.Kept() == old(host.Kept())
    ensures Logged(m, mode, course, before, host.log)
    ensures Accounted(m, mode, receipt, v, host.world, course) && course.mutated == body.mutated
    ensures ErrorsAreOld(course, host.nextId) && Explains(course, err)
    ensures old(LeftComplete(host, m, mode, receipt, body, conditions, v)) ==>
              LeftWell(host, m, mode, receipt, v, course, err, old(host.exits))
  {
    err := host.ExitLock(body.bodyError);
    assert host.guard.armed == old(host.guard.armed) && host.Kept() == old(host.Kept());
    course := SettleScope(host, m, mode, receipt, body, err, conditions, v, before);
  }

  /** The body and what follows from leaving the lock, once the lock has been entered. */
  method RunInsideBindingLock(host: Host, m: Manifest, mode: InstallMode, receipt: nat, conditions: Conditions,
                              ghost v: World, ghost before: seq<Command>, ghost untroubled: bool)
    returns (course: Course, err: Option<Exc>)
    requires ValidManifest(m) && host.Kept() && v == host.world && before == host.log
    requires untroubled ==> Untroubled(host, m, mode, conditions)
    modifies host`world, host`script, host`exits, host`nextId, host`log, host.guard
    ensures host.Kept()
    ensures old(host.nextId) <= host.nextId
    ensures Logged(m, mode, course, before, host.log)
    ensures Accounted(m, mode, receipt, v, host.world, course)
    ensures ErrorsAreOld(course, host.nextId) && Explains(course, err)
    ensures course.mutated ==> host.guard.armed
    ensures untroubled ==> LeftWell(host, m, mode, receipt, v, course, err, old(host.exits))
  {
    var body := RunBody(host, m, mode, receipt, conditions, untroubled);
    course, err := LeaveBindingLock(host, m, mode, receipt, body, conditions, v, before);
  }

  /** What follows from leaving the lock after a complete apply phase. */
  ghost predicate LeftWell(host: Host, m: Manifest, mode: InstallMode, receipt: nat, v: World, course: Course,
                           err: Option<Exc>, exits: seq<Exit>)
    reads host, host.guard
  {
    && (exits == [] ==>
          && host.Quiet() && host.exits == [] && course.mutated && course.bodyError.None? && err.None?
          && IsApplied(m, mode, receipt, v, host.world))
    && (BindingExitFails(exits) ==>
          && FailedInScope(course, err, exits[0].fault.value)
          && host.exits == exits[1..]
          && host.guard.count == 0)
  }

  method RunUnderBindingLock(host: Host, m: Manifest, mode: InstallMode, receipt: nat, conditions: Conditions)
    returns (course: Course, err: Option<Exc>)
    requires ValidManifest(m)
    requires host.Kept()
    modifies host`world, host`script, host`exits, host`nextId, host`log, host.guard
    ensures host.Kept()
    ensures old(host.nextId) <= host.nextId
    ensures Logged(m, mode, course, old(host.log), host.log)
    ensures Accounted(m, mode, receipt, old(host.world), host.world, course)
    ensures ErrorsAreOld(course, host.nextId) && Explains(course, err)
    ensures course.mutated ==> host.guard.armed
    ensures old(Untroubled(host, m, mode, conditions)) ==>
              LeftWell(host, m, mode, receipt, old(host.world), course, err, old(host.exits))
  {
    err := host.Check(true); // entering the binding lock
    if err.Some? {
      course := WithScopeError(UNTOUCHED, err);
    } else {
      ghost var untroubled := Untroubled(host, m, mode, conditions);
      course, err := RunInsideBindingLock(host, m, mode, receipt, conditions, host.world, host.log, untroubled);
    }
  }

  // --- settlement ---------------------------------------------------------------------------

  datatype Outcome = Reported(deferred: seq<UnitName>) | Raised(error: Exc)

  const UNPROVEN: Outcome := Raised(SafetyUnproven)

  /** A failure before the first change is passed on; `id` is for an exception that has to be made. */
  function AfterUnmutatedFailure(error: Exc, id: nat): Outcome {
    if error.Exc? && error.kind != Ordinary then Raised(error) else Raised(Exc(Transaction, id))
  }

  function AfterBodyFailure(error: Exc, course: Course, id: nat): Outcome {
    if !course.mutated then AfterUnmutatedFailure(error, id)
    else if !Compensated(course) then UNPROVEN
    else if error.Exc? && error.kind == Termination then Raised(error)
    else Raised(Exc(Transaction, id))
  }

  /** `error` is what came out of the installer lock, or the interrupt that waited behind it. */
  function Settlement(course: Course, error: Option<Exc>, id: nat): Outcome {
    if error.Some? then
      if course.scopeError.Some? && course.mutated then UNPROVEN
      else if error == course.bodyError then AfterBodyFailure(error.value, course, id)
      else if course.mutated then UNPROVEN
      else AfterUnmutatedFailure(error.value, id)
    else if course.bodyError.Some? then AfterBodyFailure(course.bodyError.value, course, id)
    else if course.report.None? then Raised(Exc(Transaction, id))
    else Reported(course.report.value)
  }

  /** A report means installed; any other end but "safety unproven" means that every component is as before. */
  ghost predicate AllOrNothing(m: Manifest, mode: InstallMode, receipt: nat, v: World, w: World, outcome: Outcome) {
    match outcome
    case Reported(deferred) =>
      && ModeFits(mode, m) && Installed(m, mode, receipt, v, w)
      && deferred == ReportDeferred(mode, m) && DeferredByFlags(mode, m, deferred)
    case Raised(error) => error.Exc? ==> SameComponents(m, mode, v, w)
  }

  lemma SettlementIsAllOrNothing(m: Manifest, mode: InstallMode, receipt: nat, v: World, w: World, course: Course,
                                 error: Option<Exc>, id: nat)
    requires Accounted(m, mode, receipt, v, w, course)
    ensures AllOrNothing(m, mode, receipt, v, w, Settlement(course, error, id))
  {
    ReportFollowsFlags(mode, m);
    if !course.mutated {
      assert SameComponents(m, mode, v, w);
    }
  }

  /**
   A failure to leave the binding lock is meant to end as "safety unproven", even if the compensation is proven.
   It is settled so, unless the installer lock swallows the exception on its way out.
   */
  lemma ScopeFailureIsUnprovenUnlessSwallowed(course: Course, error: Option<Exc>, id: nat)
    requires course.mutated && course.scopeError.Some? && course.bodyError.Some? && course.bodyError.value.Exc?
    requires Compensated(course)
    ensures Settlement(course, error, id) == UNPROVEN <==> error.Some?
  {
  }

  /** The exception that decides how a transaction ends: what came out of the locks, or else out of the body. */
  function Cause(course: Course, error: Option<Exc>): Option<Exc> {
    if error.Some? then error else course.bodyError
  }

  /**
   After the first change "safety unproven" means that a lock failed, or that the compensation is not proven. Before
   it, and otherwise, an exception that is passed on is passed on as it is: a termination always, and one of the
   transaction itself only before the first change. All others become an exception of the transaction.
   */
  ghost predicate SettledByCause(course: Course, error: Option<Exc>, id: nat, outcome: Outcome) {
    var cause := Cause(course, error);
    if cause.None? then
      outcome == if course.report.Some? then Reported(course.report.value) else Raised(Exc(Transaction, id))
    else if course.mutated && (!Compensated(course)
                               || (error.Some? && (course.scopeError.Some? || error != course.bodyError))) then
      outcome == UNPROVEN
    else if cause.value.Exc? && (cause.value.kind == Termination
                                 || (cause.value.kind == Transaction && !course.mutated)) then
      outcome == Raised(cause.value)
    else
      outcome == Raised(Exc(Transaction, id))
  }

  lemma SettlementFollowsCause(m: Manifest, mode: InstallMode, receipt: nat, v: World, w: World, course: Course,
                               error: Option<Exc>, id: nat)
    requires Accounted(m, mode, receipt, v, w, course)
    ensures SettledByCause(course, error, id, Settlement(course, error, id))
  {
  }

  /** The lock that is left next swallows what comes out of it, and no signal arrives. */
  predicate ExitSwallows(exits: seq<Exit>) {
    exits != [] && exits[0] == Exit(0, None, true)
  }

  /** What comes out of the installer lock, or the interrupt that waits behind it. */
  method LeaveInstallerLock(host: Host, pending: Option<Exc>) returns (err: Option<Exc>)
    modifies host`exits, host`nextId, host.guard`count
    ensures old(host.nextId) <= host.nextId
    ensures old(host.Quiet()) && old(host.exits) == [] && pending.None? ==> host.Quiet() && err.None?
    ensures pending.Some? && host.guard.armed && old(host.guard.count) == 0 ==>
              (err.None? <==> ExitSwallows(old(host.exits)))
  {
    err := host.ExitLock(pending);
    if err.None? {
      err := host.RaiseIfPending();
    }
  }

  method RunUnderInstallerLock(host: Host, m: Manifest, mode: InstallMode, receipt: nat, conditions: Conditions)
    returns (course: Course, err: Option<Exc>)
    requires ValidManifest(m)
    requires host.Kept()
    modifies host`world, host`script, host`exits, host`nextId, host`log, host.guard
    ensures host.Kept() && (course.mutated ==> host.guard.armed)
    ensures Logged(m, mode, course, old(host.log), host.log)
    ensures Accounted(m, mode, receipt, old(host.world), host.world, course)
    ensures ErrorsAreOld(course, host.nextId)
    ensures old(Untroubled(host, m, mode, conditions)) && old(host.exits) == [] ==>
              && host.Quiet() && course.mutated && course.bodyError.None? && err.None?
              && IsApplied(m, mode, receipt, old(host.world), host.world)
    ensures old(Untroubled(host, m, mode, conditions)) && BindingExitFails(old(host.exits)) ==>
              && FailedInScope(course, course.scopeError, old(host.exits)[0].fault.value)
              && (err.None? <==> ExitSwallows(old(host.exits)[1..]))
  {
    course := UNTOUCHED;
    err := host.Check(true); // entering the installer lock
    if err.None? {
      err := host.Check(conditions.boundary);
      if err.None? {
        err := host.Check(true); // loading the input
        if err.None? {
          course, err := RunUnderBindingLock(host, m, mode, receipt, conditions);
        }
      }
      err := LeaveInstallerLock(host, err);
    }
  }

  /** The service manager has been given a reload and commands that name exactly the flagged units. */
  ghost predicate CommandedByFlags(m: Manifest, mode: InstallMode, before: seq<Command>, after: seq<Command>) {
    && after == before + ApplyCommands(mode, m)
    && (forall c | c in ApplyCommands(mode, m) :: ByFlags(mode, m, c))
  }

  /** What a report tells about the commands that were given, and in a normal install about every unit with the flag. */
  ghost predicate ReportFollowsManifest(m: Manifest, mode: InstallMode, w: World, before: seq<Command>,
                                        after: seq<Command>)
  {
    && CommandedByFlags(m, mode, before, after)
    && (mode == Normal ==> forall i | 0 <= i < |m| && m[i].enable :: m[i].name in w.enabled)
  }

  lemma InstalledFollowsManifest(m: Manifest, mode: InstallMode, receipt: nat, v: World, w: World,
                                 before: seq<Command>)
    requires Installed(m, mode, receipt, v, w)
    ensures ReportFollowsManifest(m, mode, w, before, before + ApplyCommands(mode, m))
  {
    CommandsFollowFlags(mode, m);
  }

  /** What holds of every end: the world, and the commands that were given. */
  ghost predicate Guaranteed(m: Manifest, mode: InstallMode, receipt: nat, v: World, w: World, before: seq<Command>,
                             after: seq<Command>, outcome: Outcome)
  {
    && AllOrNothing(m, mode, receipt, v, w, outcome)
    && OnlyAllowed(mode, before, after)
    && (outcome.Reported? ==> ReportFollowsManifest(m, mode, w, before, after))
  }

  /**
   The transaction under both locks, settled; `left` is what it was left with.
   If an installation goes well until the binding lock fails, then it is undone, and it ends as "safety unproven"
   exactly if the installer lock does not swallow the exception.
   */
  method InstallGuarded(host: Host, m: Manifest, mode: InstallMode, receipt: nat, conditions: Conditions)
    returns (outcome: Outcome, ghost course: Course, ghost left: Option<Exc>)
    requires ValidManifest(m)
    requires host.Kept()
    modifies host`world, host`script, host`exits, host`nextId, host`log, host.guard
    ensures host.Kept() && (course.mutated ==> host.guard.armed)
    ensures Guaranteed(m, mode, receipt, old(host.world), host.world, old(host.log), host.log, outcome)
    ensures Accounted(m, mode, receipt, old(host.world), host.world, course)
    ensures outcome == Settlement(course, left, host.nextId)
    ensures SettledByCause(course, left, host.nextId, outcome)
    ensures course.mutated && course.scopeError.Some? && Compensated(course) ==> (outcome == UNPROVEN <==> left.Some?)
    ensures outcome == UNPROVEN ==> host.guard.armed
    ensures old(Untroubled(host, m, mode, conditions)) && old(host.exits) == [] ==>
              && host.Quiet() && outcome.Reported?
              && IsApplied(m, mode, receipt, old(host.world), host.world)
    ensures old(Untroubled(host, m, mode, conditions)) && BindingExitFails(old(host.exits)) ==>
              && FailedInScope(course, course.scopeError, old(host.exits)[0].fault.value)
              && (outcome == UNPROVEN <==> !ExitSwallows(old(host.exits)[1..]))
  {
    ghost var v, before := host.world, host.log;
    var result, err := RunUnderInstallerLock(host, m, mode, receipt, conditions);
    outcome := Settlement(result, err, host.nextId);
    course, left := result, err;
    SettlementIsAllOrNothing(m, mode, receipt, v, host.world, result, err, host.nextId);
    SettlementFollowsCause(m, mode, receipt, v, host.world, result, err, host.nextId);
    if outcome.Reported? {
      InstalledFollowsManifest(m, mode, receipt, v, host.world, before);
    }
    if result.mutated && result.scopeError.Some? && Compensated(result) {
      ScopeFailureIsUnprovenUnlessSwallowed(result, err, host.nextId);
    }
  }

  /**
   Such a run: the port calls all go well, the binding lock fails with an exception of the given kind, and the
   installer lock swallows it. The installation ends with an ordinary failure.
   */
  method SwallowedScopeFailure(w: World, m: Manifest, mode: InstallMode, receipt: nat, tolerant: bool, kind: Kind)
    returns (outcome: Outcome)
    requires ValidManifest(m) && Capturable(m, mode, w) && Verifiable(m, mode, w)
    ensures outcome.Raised? && outcome.error.Exc?
    ensures outcome.error.kind == if kind == Termination then Termination else Transaction
  {
    var exits := [Exit(0, Some(kind), false), Exit(0, None, true)];
    var host := new Host(w, [], exits, Default, Calm);
    assert exits[1..] == [Exit(0, None, true)];
    ghost var course, left;
    outcome, course, left := InstallGuarded(host, m, mode, receipt, Conditions(true, tolerant));
  }

  /** What the settlement makes of an outcome: a failed closing and a held-back SIGINT come before it. */
  method Settle(host: Host, outcome: Outcome, failed: Option<Exc>) returns (result: Outcome)
    requires failed.Some? ==> failed.value.Exc?
    modifies host`nextId, host`replays
    ensures outcome == UNPROVEN <==> result == UNPROVEN
    ensures result == outcome || result.Raised?
    ensures result.Reported? ==> host.guard.count == 0 || host.guard.previousHandler in {Ignore, Custom(None)}
    ensures host.replays <= old(host.replays) + 1
    ensures failed.None? && host.guard.count == 0 ==> result == outcome
  {
    result := outcome;
    if outcome != UNPROVEN {
      if failed.Some? {
        result := Raised(failed.value);
      } else if host.guard.count > 0 {
        var replayed := host.ReplayOnce();
        if replayed.Some? {
          result := Raised(replayed.value);
        }
      }
    }
  }

  /** The settlement together with what may interrupt it; `settled` is the outcome that is to be settled. */
  method SettleInterruptibly(host: Host, settled: Outcome, failed: Option<Exc>) returns (result: Outcome)
    requires failed.Some? ==> failed.value.Exc?
    modifies host`nextId, host`replays
    ensures result == settled || result.Raised?
    ensures result == UNPROVEN ==> settled == UNPROVEN
    ensures var interruption := Interruption(host.handler, host.closing.(fails := failed.Some?));
            && (interruption.None? && settled == UNPROVEN ==> result == UNPROVEN)
            && (interruption.Some? ==> result.Raised? && result.error.Exc? && result.error.kind == interruption.value)
    ensures result.Reported? ==> host.guard.count == 0 || host.guard.previousHandler in {Ignore, Custom(None)}
    ensures host.replays <= old(host.replays) + 1
    ensures failed.None? && host.guard.count == 0 && host.closing == Calm ==> result == settled
  {
    var thrown := host.Signalled(host.closing.signals, failed.None?);
    if thrown.None? && host.closing.exhausted {
      var e := host.NewError(Termination);
      thrown := Some(e);
    }
    result := settled;
    if thrown.None? {
      result := Settle(host, settled, failed);
      thrown := host.Signalled(host.closing.later, failed.None?);
    }
    if thrown.Some? {
      result := Raised(thrown.value);
    }
  }

  /**
   The guard is closed, a SIGINT that was held back is replayed once, and the outcome is settled. Nothing else is
   turned into "safety unproven", and a termination never replaces it. It is replaced exactly if the caller's handler
   cannot be set back, raises anything but a termination in time, or raises once more while a termination is being
   handled.
   */
  method CloseAndSettle(host: Host, settled: Outcome) returns (outcome: Outcome)
    requires host.Kept() && (settled == UNPROVEN ==> host.guard.armed)
    modifies host`nextId, host`replays, host.guard
    ensures outcome == UNPROVEN <==> settled == UNPROVEN && !Displaces(host.handler, host.closing)
    ensures outcome == settled || outcome.Raised?
    ensures outcome.Reported? ==> host.guard.count == 0 || host.guard.previousHandler in {Ignore, Custom(None)}
    ensures !host.guard.armed && host.replays <= old(host.replays) + 1
    ensures old(host.Quiet()) && host.closing == Calm && host.handler != Foreign ==> outcome == settled
  {
    var unproven := settled == UNPROVEN;
    var failed, raised := host.Close();
    if raised.Some? {
      outcome := Raised(raised.value);
    } else {
      outcome := SettleInterruptibly(host, settled, failed);
      if outcome.Raised? && outcome.error.Exc? && outcome.error.kind == Termination {
        var again := host.Signalled(host.closing.again, failed.None?);
        if again.Some? {
          outcome := Raised(again.value);
        } else if unproven {
          outcome := UNPROVEN;
        }
      }
    }
  }

  /**
   The whole install; `settled` is the outcome before the guard is closed. A report means that the manifest is
   installed and that the commands named exactly the flagged units; a host that interferes with nothing is changed
   exactly as the flags ask.
   */
  method Install(host: Host, m: Manifest, mode: InstallMode, receipt: nat, conditions: Conditions)
    returns (outcome: Outcome, ghost settled: Outcome)
    requires ValidManifest(m) && !host.guard.armed && host.guard.count == 0
    modifies host, host.guard
    ensures Guaranteed(m, mode, receipt, old(host.world), host.world, old(host.log), host.log, settled)
    ensures outcome == UNPROVEN <==> settled == UNPROVEN && !Displaces(old(host.handler), old(host.closing))
    ensures outcome == settled || outcome.Raised?
    ensures outcome.Reported? ==> host.guard.count == 0 || host.guard.previousHandler in {Ignore, Custom(None)}
    ensures !host.guard.armed && host.replays <= old(host.replays) + 1
    ensures old(Untroubled(host, m, mode, conditions)) && old(host.exits) == [] ==>
              && settled.Reported? && ChangedByFlags(m, mode, receipt, old(host.world), host.world)
              && (old(host.closing) == Calm && old(host.handler) != Foreign ==> outcome == settled)
    ensures old(Untroubled(host, m, mode, conditions)) && BindingExitFails(old(host.exits)) ==>
              (settled == UNPROVEN <==> !ExitSwallows(old(host.exits)[1..]))
  {
    outcome := InstallWhileGuarded(host, m, mode, receipt, conditions);
    settled := outcome;
    outcome := CloseAndSettle(host, outcome);
  }

  /** The guarded transaction, told without its course. */
  method InstallWhileGuarded(host: Host, m: Manifest, mode: InstallMode, receipt: nat, conditions: Conditions)
    returns (outcome: Outcome)
    requires ValidManifest(m)
    requires host.Kept()
    modifies host`world, host`script, host`exits, host`nextId, host`log, host.guard
    ensures host.Kept() && (outcome == UNPROVEN ==> host.guard.armed)
    ensures Guaranteed(m, mode, receipt, old(host.world), host.world, old(host.log), host.log, outcome)
    ensures old(Untroubled(host, m, mode, conditions)) && old(host.exits) == [] ==>
              && host.Quiet() && outcome.Reported?
              && ChangedByFlags(m, mode, receipt, old(host.world), host.world)
    ensures old(Untroubled(host, m, mode, conditions)) && BindingExitFails(old(host.exits)) ==>
              (outcome == UNPROVEN <==> !ExitSwallows(old(host.exits)[1..]))
  {
    ghost var v := host.world;
    ghost var course, left;
    outcome, course, left := InstallGuarded(host, m, mode, receipt, conditions);
    ApplyInstalls(m, mode, receipt, v);
  }

  /**
   Such runs: after a complete apply phase the binding lock fails, so that "safety unproven" is what is settled, and
   the handler and the late signals decide whether it is also what the caller sees.
   */
  method UnprovenMayBeDisplaced(w: World, m: Manifest, mode: InstallMode, receipt: nat, tolerant: bool,
                                handler: Handler, closing: Closing)
    returns (outcome: Outcome)
    requires ValidManifest(m) && Capturable(m, mode, w) && Verifiable(m, mode, w)
    ensures outcome == UNPROVEN <==> !Displaces(handler, closing)
  {
    var host := new Host(w, [], [Exit(0, Some(Ordinary), false)], handler, closing);
    ghost var settled;
    outcome, settled := Install(host, m, mode, receipt, Conditions(true, tolerant));
  }
}
