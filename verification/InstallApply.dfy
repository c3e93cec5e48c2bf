/** The apply phase as a sequence of atomic steps, and what the frozen plan does after any number of them. */
module InstallApply {
  import opened Wrappers
  import opened InstallPlans
  import opened InstallCoverage

  datatype ApplyStep =
    | WriteUnit(unit: UnitName, content: nat)
    | RetireShadow(unit: UnitName)
    | Reload
    | Enable(unit: UnitName)
    | Restart(unit: UnitName)
    | WriteReceipt(content: nat)

  const UNIT_FILE_MODE: nat := 0x1A4 // 0o644

  function Installation(content: nat): UnitFile {
    UnitFile(content, UNIT_FILE_MODE, 0, 0)
  }

  /** The shadow is moved to its archive name; without an active shadow there is nothing to move. */
  function Retired(s: Shadow): Shadow {
    if s.active.Some? then Shadow(None, s.active) else s
  }

  function Advance(s: ApplyStep, w: World): World {
    match s
    case WriteUnit(u, content) => SetFile(w, u, Some(Installation(content)))
    case RetireShadow(u) =>
      if ShadowOf(w, u).active.None? then w else w.(shadows := w.shadows[u := Shadow(None, ShadowOf(w, u).active)])
    case Reload => w.(loaded := Visible(w))
    case Enable(u) => w.(enabled := w.enabled + {u})
    case Restart(u) => w.(running := w.running + {u}, processes := w.processes[u := ProcessOf(w, u) + 1])
    case WriteReceipt(content) => w.(receipt := Some(content))
  }

  function Writes(m: Manifest): seq<ApplyStep> {
    seq(|m|, i requires 0 <= i < |m| => WriteUnit(m[i].name, m[i].content))
  }

  function Retires(m: Manifest): seq<ApplyStep> {
    seq(|m|, i requires 0 <= i < |m| => RetireShadow(m[i].name))
  }

  function Enables(names: seq<UnitName>): seq<ApplyStep> {
    seq(|names|, i requires 0 <= i < |names| => Enable(names[i]))
  }

  function Restarts(names: seq<UnitName>): seq<ApplyStep> {
    seq(|names|, i requires 0 <= i < |names| => Restart(names[i]))
  }

  function Activation(m: Manifest, mode: InstallMode, receipt: nat): seq<ApplyStep> {
    Retires(m)
    + [Reload]
    + Enables(EnableNames(mode, EnableUnits(m)))
    + Restarts(RestartNames(mode, ImmediateRestartUnits(m)))
    + (if WritesReceipt(mode) then [WriteReceipt(receipt)] else [])
  }

  function ApplySteps(m: Manifest, mode: InstallMode, receipt: nat): seq<ApplyStep> {
    Writes(m) + Activation(m, mode, receipt)
  }

  function RunSteps(steps: seq<ApplyStep>, w: World): World
    decreases |steps|
  {
    if steps == [] then w else RunSteps(steps[1..], Advance(steps[0], w))
  }

  /** Every unit file of the manifest is on disk, readable for all, and owned and written by root alone. */
  predicate AllWritten(m: Manifest, w: World) {
    forall i | 0 <= i < |m| :: m[i].name in w.files && w.files[m[i].name] == UnitFile(m[i].content, 0x1A4, 0, 0)
  }

  /** During maintenance the codegraph unit is masked, so that its file on disk is all that can be verified. */
  predicate UnderMaintenance(mode: InstallMode, w: World) {
    mode == MaintenanceStage || mode == GuardedStage || (mode == InstallOnly && w.masked)
  }

  predicate Exempt(mode: InstallMode, w: World, u: UnitName) {
    u == CodegraphUnit && UnderMaintenance(mode, w)
  }

  predicate Loads(m: Manifest, mode: InstallMode, w: World) {
    forall i | 0 <= i < |m| && !Exempt(mode, w, m[i].name) ::
      m[i].name in w.loaded && w.loaded[m[i].name] == UnitFile(m[i].content, 0x1A4, 0, 0)
  }

  predicate CoversDeferred(m: Manifest, mode: InstallMode, w: World) {
    UnderMaintenance(mode, w) ==> forall u | u in DEFERRED :: u in Names(m)
  }

  /** What the verifier of the mode demands of the unit files and of the manager's view of them. */
  predicate PayloadsProven(m: Manifest, mode: InstallMode, w: World) {
    AllWritten(m, w) && Loads(m, mode, w) && CoversDeferred(m, mode, w)
  }

  /** The verifier of the mode is able to accept the manifest on such a host. */
  predicate Verifiable(m: Manifest, mode: InstallMode, w: World) {
    && (mode == MaintenanceStage || mode == GuardedStage || (mode == InstallOnly && w.masked) ==>
          ReindexUnit in Names(m) && CodegraphUnit in Names(m) && WebhookUnit in Names(m))
    && (mode == Normal && w.masked ==> CodegraphUnit !in Names(m))
  }

  predicate Activates(m: Manifest, mode: InstallMode, w: World) {
    && (forall i | 0 <= i < |m| && IsToEnable(mode, m[i]) :: m[i].name in w.enabled)
    && (forall i | 0 <= i < |m| && IsToRestart(mode, m[i]) :: m[i].name in w.running)
  }

  /** What a successful install must have verified before it reports; `v` is the world before it. */
  ghost predicate Installed(m: Manifest, mode: InstallMode, receipt: nat, v: World, w: World) {
    && PayloadsProven(m, mode, w)
    && Activates(m, mode, w)
    && (forall u | u in Names(m) :: ShadowOf(w, u) == Retired(ShadowOf(v, u)))
    && (mode == InstallOnly || mode == GuardedStage ==>
          forall u | u in Names(m) :: ProcessOf(w, u) == ProcessOf(v, u))
    && (mode == MaintenanceStage || mode == GuardedStage ==> w.receipt == Some(receipt))
  }

  // --- every prefix stays in the footprint --------------------------------------------------

  /** A step that the apply phase takes only after all unit files are written. */
  predicate IsActivation(s: ApplyStep, m: Manifest, mode: InstallMode, receipt: nat) {
    match s
    case WriteUnit(_, _) => false
    case RetireShadow(u) => u in Names(m)
    case Reload => true
    case Enable(u) => u in EnableNames(mode, EnableUnits(m))
    case Restart(u) => u in RestartNames(mode, ImmediateRestartUnits(m))
    case WriteReceipt(content) => WritesReceipt(mode) && content == receipt
  }

  lemma {:induction false} WritesOnly(m: Manifest, w: World)
    requires DistinctNames(m)
    ensures var t := RunSteps(Writes(m), w);
            && t == w.(files := t.files)
            && AllWritten(m, t)
            && (forall u | u !in Names(m) :: FileOf(t, u) == FileOf(w, u))
  {
    if m != [] {
      var next := Advance(WriteUnit(m[0].name, m[0].content), w);
      assert Writes(m)[1..] == Writes(m[1..]);
      WritesOnly(m[1..], next);
      var t := RunSteps(Writes(m), w);
      assert Names(m) == [m[0].name] + Names(m[1..]);
      assert m[0].name !in Names(m[1..]);
      assert FileOf(t, m[0].name) == FileOf(next, m[0].name);
      forall i | 0 <= i < |m|
        ensures m[i].name in t.files && t.files[m[i].name] == Installation(m[i].content)
      {
        if i > 0 {
          assert m[i] == m[1..][i - 1];
        }
      }
    }
  }

  lemma ActivationKeepsFootprint(s: ApplyStep, m: Manifest, mode: InstallMode, receipt: nat, v: World, w: World)
    requires IsActivation(s, m, mode, receipt)
    requires AllWritten(m, w) && Footprint(m, mode, v, w)
    ensures AllWritten(m, Advance(s, w)) && Footprint(m, mode, v, Advance(s, w))
  {
    var t := Advance(s, w);
    forall u | u in Names(m)
      ensures FileOf(t, u).Some? && CapturedOrRetired(ShadowOf(t, u), ShadowOf(v, u))
    {
      var i :| 0 <= i < |m| && m[i].name == u;
      assert CapturedOrRetired(ShadowOf(w, u), ShadowOf(v, u));
    }
  }

  lemma {:induction false} ActivationsKeepFootprint(
    steps: seq<ApplyStep>, m: Manifest, mode: InstallMode, receipt: nat, v: World, w: World)
    requires forall s | s in steps :: IsActivation(s, m, mode, receipt)
    requires AllWritten(m, w) && Footprint(m, mode, v, w)
    ensures AllWritten(m, RunSteps(steps, w)) && Footprint(m, mode, v, RunSteps(steps, w))
  {
    if steps != [] {
      ActivationKeepsFootprint(steps[0], m, mode, receipt, v, w);
      ActivationsKeepFootprint(steps[1..], m, mode, receipt, v, Advance(steps[0], w));
    }
  }

  lemma {:induction false} StepsConcat(p: seq<ApplyStep>, q: seq<ApplyStep>, w: World)
    ensures RunSteps(p + q, w) == RunSteps(q, RunSteps(p, w))
  {
    if p == [] {
      assert p + q == q;
    } else {
      assert (p + q)[0] == p[0] && (p + q)[1..] == p[1..] + q;
      StepsConcat(p[1..], q, Advance(p[0], w));
    }
  }

  lemma ActivationSteps(m: Manifest, mode: InstallMode, receipt: nat)
    ensures forall s | s in Activation(m, mode, receipt) :: IsActivation(s, m, mode, receipt)
  {
    var enable, restart := EnableNames(mode, EnableUnits(m)), RestartNames(mode, ImmediateRestartUnits(m));
    forall s | s in Activation(m, mode, receipt)
      ensures IsActivation(s, m, mode, receipt)
    {
      if s in Retires(m) {
        var i :| 0 <= i < |m| && s == RetireShadow(m[i].name);
        assert Names(m)[i] == m[i].name;
      } else if s in Enables(enable) {
        var i :| 0 <= i < |enable| && s == Enable(enable[i]);
      } else if s in Restarts(restart) {
        var i :| 0 <= i < |restart| && s == Restart(restart[i]);
      }
    }
  }

  lemma PartialWrites(m: Manifest, mode: InstallMode, v: World, k: nat)
    requires ValidManifest(m) && k <= |m|
    ensures var w := RunSteps(Writes(m[..k]), v);
            && w == v.(files := w.files)
            && (forall i | 0 <= i < |m| :: m[i].name in w.files <==> i < k || m[i].name in v.files)
  {
    WritesOnly(m[..k], v);
    var w := RunSteps(Writes(m[..k]), v);
    forall i | 0 <= i < |m|
      ensures m[i].name in w.files <==> i < k || m[i].name in v.files
    {
      if i < k {
        assert m[..k][i] == m[i];
      } else {
        assert m[i].name !in Names(m[..k]);
        assert FileOf(w, m[i].name) == FileOf(v, m[i].name);
      }
    }
  }

  lemma TakeOfBoth<T>(p: seq<T>, q: seq<T>, k: nat)
    requires |p| <= k <= |p| + |q|
    ensures (p + q)[..k] == p + q[..k - |p|]
  {
  }

  lemma ActivationPrefix(m: Manifest, mode: InstallMode, receipt: nat, v: World, w: World, n: nat)
    requires n <= |Activation(m, mode, receipt)|
    requires AllWritten(m, w) && Footprint(m, mode, v, w)
    ensures AllWritten(m, RunSteps(Activation(m, mode, receipt)[..n], w))
    ensures Footprint(m, mode, v, RunSteps(Activation(m, mode, receipt)[..n], w))
  {
    ActivationSteps(m, mode, receipt);
    ActivationsKeepFootprint(Activation(m, mode, receipt)[..n], m, mode, receipt, v, w);
  }

  lemma WritesKeepFootprint(m: Manifest, mode: InstallMode, v: World)
    requires ValidManifest(m)
    ensures AllWritten(m, RunSteps(Writes(m), v)) && Footprint(m, mode, v, RunSteps(Writes(m), v))
  {
    WritesOnly(m, v);
    FilesKeepFootprint(m, mode, v, RunSteps(Writes(m), v));
  }

  lemma LateRun(m: Manifest, mode: InstallMode, receipt: nat, v: World, k: nat)
    requires |m| <= k <= |ApplySteps(m, mode, receipt)|
    ensures RunSteps(ApplySteps(m, mode, receipt)[..k], v)
            == RunSteps(Activation(m, mode, receipt)[..k - |m|], RunSteps(Writes(m), v))
  {
    var activation := Activation(m, mode, receipt);
    TakeOfBoth(Writes(m), activation, k);
    StepsConcat(Writes(m), activation[..k - |m|], v);
  }

  lemma LatePrefix(m: Manifest, mode: InstallMode, receipt: nat, v: World, k: nat)
    requires ValidManifest(m) && |m| <= k <= |ApplySteps(m, mode, receipt)|
    ensures AllWritten(m, RunSteps(ApplySteps(m, mode, receipt)[..k], v))
    ensures Footprint(m, mode, v, RunSteps(ApplySteps(m, mode, receipt)[..k], v))
  {
    LateRun(m, mode, receipt, v, k);
    WritesKeepFootprint(m, mode, v);
    ActivationPrefix(m, mode, receipt, v, RunSteps(Writes(m), v), k - |m|);
  }

  lemma FilesKeepFootprint(m: Manifest, mode: InstallMode, v: World, w: World)
    requires w == v.(files := w.files)
    ensures Footprint(m, mode, v, w)
  {
  }

  /** After `k` steps the world is in the footprint, and exactly the first `k` units of the manifest are written. */
  lemma PrefixKeepsFootprint(m: Manifest, mode: InstallMode, receipt: nat, v: World, k: nat)
    requires ValidManifest(m) && k <= |ApplySteps(m, mode, receipt)|
    ensures var w := RunSteps(ApplySteps(m, mode, receipt)[..k], v);
            && Footprint(m, mode, v, w)
            && (forall i | 0 <= i < |m| :: m[i].name in w.files <==> i < k || m[i].name in v.files)
  {
    if k < |m| {
      PartialWrites(m, mode, v, k);
      assert ApplySteps(m, mode, receipt)[..k] == Writes(m[..k]);
      FilesKeepFootprint(m, mode, v, RunSteps(Writes(m[..k]), v));
    } else {
      LatePrefix(m, mode, receipt, v, k);
    }
  }

  /**
   The plan frozen before the first write, started after any number of apply steps, brings every frozen
   component back. It counts as proven exactly if the service manager tolerates commands for units without a
   file, or every unit that did not exist before and whose state is restored is already written.
   */
  lemma ApplyCanBeUndoneAnywhere(c: Captured, m: Manifest, mode: InstallMode, receipt: nat, v: World, k: nat,
                                 tolerant: bool)
    requires ValidManifest(m) && CapturedFrom(c, m, mode, v) && k <= |ApplySteps(m, mode, receipt)|
    ensures var w := RunSteps(ApplySteps(m, mode, receipt)[..k], v);
            var (t, proven) := RunPlan(BuildCompensationActions(c, RestoresActivity(mode)), w, tolerant);
            && SameComponents(m, mode, v, t) && t.loaded == Visible(t)
            && (proven <==> tolerant
                            || forall i | k <= i < |m| && m[i].name in StateNames(mode, m) :: m[i].name in v.files)
  {
    PrefixKeepsFootprint(m, mode, receipt, v, k);
    var w := RunSteps(ApplySteps(m, mode, receipt)[..k], v);
    var t := PlanBringsComponentsBack(c, m, mode, v, w, tolerant);
    NewUnitsByIndex(m, mode, v, w, k);
  }

  lemma NewUnitsByIndex(m: Manifest, mode: InstallMode, v: World, w: World, k: nat)
    requires forall i | 0 <= i < |m| :: m[i].name in w.files <==> i < k || m[i].name in v.files
    ensures NewUnitsInPlace(m, mode, v, w) <==>
            forall i | k <= i < |m| && m[i].name in StateNames(mode, m) :: m[i].name in v.files
  {
    forall u | u in StateNames(mode, m)
      ensures exists i :: 0 <= i < |m| && m[i].name == u
    {
      TouchedUnitsAreCaptured(mode, m, u);
      var i :| 0 <= i < |Names(m)| && Names(m)[i] == u;
      assert m[i].name == u;
    }
  }

  // --- what a complete apply phase leaves ---------------------------------------------------

  lemma {:induction false} RetiresOnly(m: Manifest, w: World)
    requires DistinctNames(m)
    ensures var t := RunSteps(Retires(m), w);
            && t == w.(shadows := t.shadows)
            && (forall u :: ShadowOf(t, u) == if u in Names(m) then Retired(ShadowOf(w, u)) else ShadowOf(w, u))
  {
    if m != [] {
      assert Retires(m)[1..] == Retires(m[1..]);
      RetiresOnly(m[1..], Advance(RetireShadow(m[0].name), w));
      assert Names(m) == [m[0].name] + Names(m[1..]);
      assert m[0].name !in Names(m[1..]);
    }
  }

  lemma {:induction false} EnablesOnly(names: seq<UnitName>, w: World)
    ensures var t := RunSteps(Enables(names), w);
            t == w.(enabled := t.enabled) && (forall u :: u in t.enabled <==> u in w.enabled || u in names)
  {
    if names != [] {
      assert Enables(names)[1..] == Enables(names[1..]);
      EnablesOnly(names[1..], Advance(Enable(names[0]), w));
      assert names == [names[0]] + names[1..];
    }
  }

  lemma {:induction false} RestartsOnly(names: seq<UnitName>, w: World)
    ensures var t := RunSteps(Restarts(names), w);
            && t == w.(running := t.running, processes := t.processes)
            && (forall u :: u in t.running <==> u in w.running || u in names)
            && (forall u :: ProcessOf(t, u) == ProcessOf(w, u) + multiset(names)[u])
            && (names == [] ==> t == w)
  {
    if names != [] {
      assert Restarts(names)[1..] == Restarts(names[1..]);
      RestartsOnly(names[1..], Advance(Restart(names[0]), w));
      assert names == [names[0]] + names[1..];
    }
  }

  /** The world after the files are in place and the manager has reloaded. */
  function AfterLoad(m: Manifest, v: World): World {
    Advance(Reload, RunSteps(Retires(m), RunSteps(Writes(m), v)))
  }

  function AfterActivation(m: Manifest, mode: InstallMode, w: World): World {
    RunSteps(Restarts(RestartNames(mode, ImmediateRestartUnits(m))),
             RunSteps(Enables(EnableNames(mode, EnableUnits(m))), w))
  }

  function AfterReceipt(mode: InstallMode, receipt: nat, w: World): World {
    if WritesReceipt(mode) then Advance(WriteReceipt(receipt), w) else w
  }

  ghost predicate LoadedFrom(m: Manifest, v: World, t: World) {
    && t == v.(files := t.files, shadows := t.shadows, loaded := Visible(t))
    && AllWritten(m, t)
    && (forall u | u in Names(m) :: ShadowOf(t, u) == Retired(ShadowOf(v, u)))
    && (forall u | u !in Names(m) :: FileOf(t, u) == FileOf(v, u) && ShadowOf(t, u) == ShadowOf(v, u))
  }

  /** Exactly the units to enable are enabled more than before, and exactly the units to restart have been restarted. */
  ghost predicate LifecycleDone(m: Manifest, mode: InstallMode, w: World, t: World) {
    && (forall u :: u in t.enabled <==> u in w.enabled || ToEnable(mode, m, u))
    && (forall u :: u in t.running <==> u in w.running || ToRestart(mode, m, u))
    && (forall u :: ProcessOf(t, u) == ProcessOf(w, u) + if ToRestart(mode, m, u) then 1 else 0)
  }

  ghost predicate ActivatedFrom(m: Manifest, mode: InstallMode, w: World, t: World) {
    && t == w.(enabled := t.enabled, running := t.running, processes := t.processes)
    && LifecycleDone(m, mode, w, t)
    && (StaysPassive(mode) ==> t.running == w.running && t.processes == w.processes)
  }

  lemma LifecycleActivates(m: Manifest, mode: InstallMode, w: World, t: World)
    requires LifecycleDone(m, mode, w, t)
    ensures Activates(m, mode, t)
  {
    forall i | 0 <= i < |m|
      ensures IsToEnable(mode, m[i]) ==> ToEnable(mode, m, m[i].name)
      ensures IsToRestart(mode, m[i]) ==> ToRestart(mode, m, m[i].name)
    {
    }
  }

  /** All that a complete install changes besides the files and drop-ins of the manifest, and nothing else. */
  ghost predicate ChangedByFlags(m: Manifest, mode: InstallMode, receipt: nat, v: World, w: World) {
    && LifecycleDone(m, mode, v, w)
    && (forall u | u !in Names(m) :: FileOf(w, u) == FileOf(v, u) && ShadowOf(w, u) == ShadowOf(v, u))
    && w.loaded == Visible(w) && w.masked == v.masked
    && w.receipt == if mode == MaintenanceStage || mode == GuardedStage then Some(receipt) else v.receipt
  }

  /** A completed load and activation, followed by the receipt, changes what the flags ask for and nothing else. */
  lemma StagesChangeByFlags(m: Manifest, mode: InstallMode, receipt: nat, v: World, loaded: World, activated: World,
                            w: World)
    requires LoadedFrom(m, v, loaded) && ActivatedFrom(m, mode, loaded, activated)
    requires w == activated.(receipt := w.receipt)
    requires w.receipt == if WritesReceipt(mode) then Some(receipt) else v.receipt
    ensures ChangedByFlags(m, mode, receipt, v, w)
  {
    assert LifecycleDone(m, mode, v, w) by {
      assert forall u :: ProcessOf(loaded, u) == ProcessOf(v, u) && ProcessOf(w, u) == ProcessOf(activated, u);
    }
  }

  lemma LoadInstalls(m: Manifest, v: World)
    requires ValidManifest(m)
    ensures LoadedFrom(m, v, AfterLoad(m, v))
  {
    WritesOnly(m, v);
    RetiresOnly(m, RunSteps(Writes(m), v));
  }

  lemma CoversAllThree(m: Manifest, mode: InstallMode, w: World)
    ensures CoversDeferred(m, mode, w) <==>
            (UnderMaintenance(mode, w) ==>
               ReindexUnit in Names(m) && CodegraphUnit in Names(m) && WebhookUnit in Names(m))
  {
    assert ReindexUnit in DEFERRED && CodegraphUnit in DEFERRED && WebhookUnit in DEFERRED;
  }

  /** What is on disk is also loaded, apart from a masked unit. */
  lemma WrittenIsProven(m: Manifest, mode: InstallMode, w: World)
    requires AllWritten(m, w) && w.loaded == Visible(w)
    ensures PayloadsProven(m, mode, w) <==> Verifiable(m, mode, w)
  {
    assert forall i | 0 <= i < |m| :: Names(m)[i] == m[i].name;
    CoversAllThree(m, mode, w);
  }

  lemma LoadIsProven(m: Manifest, mode: InstallMode, v: World)
    requires ValidManifest(m)
    ensures LoadedFrom(m, v, AfterLoad(m, v))
    ensures PayloadsProven(m, mode, AfterLoad(m, v)) <==> Verifiable(m, mode, v)
  {
    LoadInstalls(m, v);
    WrittenIsProven(m, mode, AfterLoad(m, v));
  }

  lemma EnablesInstall(m: Manifest, mode: InstallMode, w: World)
    ensures var t := RunSteps(Enables(EnableNames(mode, EnableUnits(m))), w);
            && t == w.(enabled := t.enabled)
            && forall u :: u in t.enabled <==> u in w.enabled || ToEnable(mode, m, u)
  {
    EnablesOnly(EnableNames(mode, EnableUnits(m)), w);
    forall u
      ensures u in EnableNames(mode, EnableUnits(m)) <==> ToEnable(mode, m, u)
    {
      EnablesFollowFlags(mode, m, u);
    }
  }

  lemma RestartsInstall(m: Manifest, mode: InstallMode, w: World)
    requires DistinctNames(m)
    ensures var t := RunSteps(Restarts(RestartNames(mode, ImmediateRestartUnits(m))), w);
            && t == w.(running := t.running, processes := t.processes)
            && (forall u :: u in t.running <==> u in w.running || ToRestart(mode, m, u))
            && (forall u :: ProcessOf(t, u) == ProcessOf(w, u) + if ToRestart(mode, m, u) then 1 else 0)
            && (StaysPassive(mode) ==> t == w)
  {
    var names := RestartNames(mode, ImmediateRestartUnits(m));
    RestartsOnly(names, w);
    forall u
      ensures u in names <==> ToRestart(mode, m, u)
      ensures multiset(names)[u] == if ToRestart(mode, m, u) then 1 else 0
    {
      RestartsFollowFlags(mode, m, u);
      NothingIsRestartedTwice(mode, m, u);
    }
  }

  lemma ActivationInstalls(m: Manifest, mode: InstallMode, w: World)
    requires ValidManifest(m)
    ensures ActivatedFrom(m, mode, w, AfterActivation(m, mode, w))
  {
    var enabled := RunSteps(Enables(EnableNames(mode, EnableUnits(m))), w);
    EnablesInstall(m, mode, w);
    RestartsInstall(m, mode, enabled);
    assert forall u :: ProcessOf(enabled, u) == ProcessOf(w, u);
  }

  lemma ActivationComposes(m: Manifest, mode: InstallMode, receipt: nat, w: World)
    ensures RunSteps(Activation(m, mode, receipt), w)
            == AfterReceipt(mode, receipt, AfterActivation(m, mode, Advance(Reload, RunSteps(Retires(m), w))))
  {
    var enables := Enables(EnableNames(mode, EnableUnits(m)));
    var restarts := Restarts(RestartNames(mode, ImmediateRestartUnits(m)));
    var last := if WritesReceipt(mode) then [WriteReceipt(receipt)] else [];
    StepsConcat(Retires(m), [Reload], w);
    StepsConcat(Retires(m) + [Reload], enables, w);
    StepsConcat(Retires(m) + [Reload] + enables, restarts, w);
    StepsConcat(Retires(m) + [Reload] + enables + restarts, last, w);
    assert [Reload][1..] == [];
    assert WritesReceipt(mode) ==> last[1..] == [];
  }

  lemma ApplyComposes(m: Manifest, mode: InstallMode, receipt: nat, v: World)
    ensures RunSteps(ApplySteps(m, mode, receipt), v)
            == AfterReceipt(mode, receipt, AfterActivation(m, mode, AfterLoad(m, v)))
  {
    StepsConcat(Writes(m), Activation(m, mode, receipt), v);
    ActivationComposes(m, mode, receipt, RunSteps(Writes(m), v));
  }

  lemma InstalledInStages(m: Manifest, mode: InstallMode, receipt: nat, v: World, loaded: World, activated: World)
    requires LoadedFrom(m, v, loaded) && ActivatedFrom(m, mode, loaded, activated)
    ensures Installed(m, mode, receipt, v, AfterReceipt(mode, receipt, activated)) <==> Verifiable(m, mode, v)
  {
    LifecycleActivates(m, mode, loaded, activated);
    WrittenIsProven(m, mode, AfterReceipt(mode, receipt, activated));
  }

  /**
   All steps of the apply phase together install the manifest, except on a host whose mask the verifier of the
   mode cannot reconcile with the manifest. Besides they change exactly what the flags of the manifest ask for.
   */
  lemma ApplyInstalls(m: Manifest, mode: InstallMode, receipt: nat, v: World)
    requires ValidManifest(m)
    ensures Installed(m, mode, receipt, v, RunSteps(ApplySteps(m, mode, receipt), v)) <==> Verifiable(m, mode, v)
    ensures ChangedByFlags(m, mode, receipt, v, RunSteps(ApplySteps(m, mode, receipt), v))
  {
    ApplyComposes(m, mode, receipt, v);
    LoadInstalls(m, v);
    ActivationInstalls(m, mode, AfterLoad(m, v));
    InstalledInStages(m, mode, receipt, v, AfterLoad(m, v), AfterActivation(m, mode, AfterLoad(m, v)));
    StagesChangeByFlags(m, mode, receipt, v, AfterLoad(m, v), AfterActivation(m, mode, AfterLoad(m, v)),
                        RunSteps(ApplySteps(m, mode, receipt), v));
  }
}
