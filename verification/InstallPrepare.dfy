/** The read-only phase: everything that an install may change is captured, and the plan is frozen. */
module InstallPrepares {
  import opened Wrappers
  import opened InstallPlans
  import opened InstallHosts

  /** No unit has its drop-in both in force and archived, and only units of the manifest have one in force. */
  predicate ShadowsAreManaged(m: Manifest, w: World) {
    && (forall i | 0 <= i < |m| :: ShadowOf(w, m[i].name).active.None? || ShadowOf(w, m[i].name).archive.None?)
    && (forall u | u in w.shadows && w.shadows[u].active.Some? :: u in Names(m))
  }

  /** Every drop-in in force belongs to a unit of the manifest, and its archive name is free. */
  predicate NoStrayShadow(m: Manifest, w: World) {
    forall u | u in w.shadows && w.shadows[u].active.Some? ::
      w.shadows[u].archive.None? && exists i :: 0 <= i < |m| && m[i].name == u
  }

  lemma ManagedMeansNoStray(m: Manifest, w: World)
    ensures ShadowsAreManaged(m, w) <==> NoStrayShadow(m, w)
  {
    forall u
      ensures u in Names(m) <==> exists i :: 0 <= i < |m| && m[i].name == u
    {
      assert forall i | 0 <= i < |m| :: Names(m)[i] == m[i].name;
    }
  }

  /** What the read-only phase demands of the host and of the manifest. */
  ghost predicate Capturable(m: Manifest, mode: InstallMode, w: World) {
    && ModeFits(mode, m)
    && NoStrayShadow(m, w)
    && (forall i | 0 <= i < |m| && IsStateful(mode, m[i]) :: StateOf(w, m[i].name).Some?)
  }

  lemma StatesToRead(mode: InstallMode, m: Manifest, w: World)
    ensures (forall u | u in StateNames(mode, m) :: StateOf(w, u).Some?) <==>
            forall i | 0 <= i < |m| && IsStateful(mode, m[i]) :: StateOf(w, m[i].name).Some?
  {
    forall u
      ensures u in StateNames(mode, m) <==> ToCapture(mode, m, u)
    {
      StatesFollowFlags(mode, m, u);
    }
  }

  method CaptureOriginals(host: Host, m: Manifest)
    returns (originals: seq<(UnitName, Option<UnitFile>)>, err: Option<Exc>)
    modifies host`script, host`nextId, host.guard`count
    ensures old(host.nextId) <= host.nextId
    ensures err.Some? ==> err.value.Exc? && old(host.nextId) <= err.value.id < host.nextId
    ensures err.None? ==> |originals| == |m|
                          && forall i | 0 <= i < |m| :: originals[i] == (m[i].name, FileOf(host.world, m[i].name))
    ensures old(host.Quiet()) ==> host.Quiet() && err.None?
  {
    originals, err := [], None;
    while |originals| < |m| && err.None?
      invariant |originals| <= |m| && old(host.nextId) <= host.nextId
      invariant err.Some? ==> err.value.Exc? && old(host.nextId) <= err.value.id < host.nextId
      invariant forall i | 0 <= i < |originals| :: originals[i] == (m[i].name, FileOf(host.world, m[i].name))
      invariant old(host.Quiet()) ==> host.Quiet() && err.None?
      decreases |m| - |originals| + (if err.None? then 1 else 0)
    {
      err := host.Check(true);
      if err.None? {
        originals := originals + [(m[|originals|].name, FileOf(host.world, m[|originals|].name))];
      }
    }
  }

  method CaptureShadows(host: Host, m: Manifest) returns (shadows: seq<(UnitName, Shadow)>, err: Option<Exc>)
    modifies host`script, host`nextId, host.guard`count
    ensures old(host.nextId) <= host.nextId
    ensures err.Some? ==> err.value.Exc? && old(host.nextId) <= err.value.id < host.nextId
    ensures |shadows| == |m| && forall i | 0 <= i < |m| :: shadows[i] == (m[i].name, ShadowOf(host.world, m[i].name))
    ensures err.None? ==> NoStrayShadow(m, host.world) && ShadowsAreManaged(m, host.world)
    ensures old(host.Quiet()) ==> host.Quiet() && (NoStrayShadow(m, host.world) ==> err.None?)
  {
    ManagedMeansNoStray(m, host.world);
    shadows := seq(|m|, i requires 0 <= i < |m| reads host => (m[i].name, ShadowOf(host.world, m[i].name)));
    err := host.Check(ShadowsAreManaged(m, host.world));
  }

  method CaptureStates(host: Host, names: seq<UnitName>) returns (states: seq<(UnitName, UnitState)>, err: Option<Exc>)
    modifies host`script, host`nextId, host.guard`count
    ensures old(host.nextId) <= host.nextId
    ensures err.Some? ==> err.value.Exc? && old(host.nextId) <= err.value.id < host.nextId
    ensures err.None? ==> |states| == |names|
    ensures |states| <= |names| && forall i | 0 <= i < |states| ::
              states[i].0 == names[i] && StateOf(host.world, names[i]) == Some(states[i].1)
    ensures old(host.Quiet()) ==>
              host.Quiet() && ((forall u | u in names :: StateOf(host.world, u).Some?) ==> err.None?)
  {
    states, err := [], None;
    while |states| < |names| && err.None?
      invariant |states| <= |names| && old(host.nextId) <= host.nextId
      invariant err.Some? ==> err.value.Exc? && old(host.nextId) <= err.value.id < host.nextId
      invariant forall i | 0 <= i < |states| ::
                  states[i].0 == names[i] && StateOf(host.world, names[i]) == Some(states[i].1)
      invariant old(host.Quiet()) ==>
                  host.Quiet() && ((forall u | u in names :: StateOf(host.world, u).Some?) ==> err.None?)
      decreases |names| - |states| + (if err.None? then 1 else 0)
    {
      var u := names[|states|];
      assert u in names;
      var state := StateOf(host.world, u);
      err := host.Check(state.Some?);
      if err.None? {
        states := states + [(u, state.value)];
      }
    }
  }

  method CaptureProcesses(host: Host, m: Manifest) returns (processes: seq<(UnitName, nat)>, err: Option<Exc>)
    modifies host`script, host`nextId, host.guard`count
    ensures old(host.nextId) <= host.nextId
    ensures err.Some? ==> err.value.Exc? && old(host.nextId) <= err.value.id < host.nextId
    ensures err.None? ==> |processes| == |m|
                          && forall i | 0 <= i < |m| :: processes[i] == (m[i].name, ProcessOf(host.world, m[i].name))
    ensures old(host.Quiet()) ==> host.Quiet() && err.None?
  {
    processes, err := [], None;
    while |processes| < |m| && err.None?
      invariant |processes| <= |m| && old(host.nextId) <= host.nextId
      invariant err.Some? ==> err.value.Exc? && old(host.nextId) <= err.value.id < host.nextId
      invariant forall i | 0 <= i < |processes| :: processes[i] == (m[i].name, ProcessOf(host.world, m[i].name))
      invariant old(host.Quiet()) ==> host.Quiet() && err.None?
      decreases |m| - |processes| + (if err.None? then 1 else 0)
    {
      err := host.Check(true);
      if err.None? {
        processes := processes + [(m[|processes|].name, ProcessOf(host.world, m[|processes|].name))];
      }
    }
  }

  /** A stage freezes the new receipt and the old one; other installs do not touch the receipt. */
  method CaptureReceipt(host: Host, mode: InstallMode, receipt: nat)
    returns (content: Option<nat>, original: Option<nat>, err: Option<Exc>)
    modifies host`script, host`nextId, host.guard`count
    ensures old(host.nextId) <= host.nextId
    ensures err.Some? ==> err.value.Exc? && old(host.nextId) <= err.value.id < host.nextId
    ensures content == (if WritesReceipt(mode) then Some(receipt) else None)
    ensures WritesReceipt(mode) ==> original == host.world.receipt
    ensures old(host.Quiet()) ==> host.Quiet() && err.None?
  {
    content, original, err := None, None, None;
    if WritesReceipt(mode) {
      content, original := Some(receipt), host.world.receipt;
      err := host.Check(true);
      if err.None? {
        err := host.Check(true);
      }
    }
  }

  /** The parts of the capture, in their order. */
  method CaptureParts(host: Host, m: Manifest, mode: InstallMode, receipt: nat)
    returns (c: Captured, err: Option<Exc>)
    modifies host`script, host`nextId, host.guard`count
    ensures old(host.nextId) <= host.nextId
    ensures err.Some? ==> err.value.Exc? && old(host.nextId) <= err.value.id < host.nextId
    ensures err.None? ==> CapturedFrom(c, m, mode, host.world)
    ensures err.None? && WritesReceipt(mode) ==> c.receiptContent == Some(receipt)
    ensures old(host.Quiet()) ==>
              host.Quiet()
              && (NoStrayShadow(m, host.world) && (forall u | u in StateNames(mode, m) :: StateOf(host.world, u).Some?)
                  ==> err.None?)
  {
    c := Captured([], [], [], None, None, []);
    var content, receiptOriginal, originals, shadows, states, processes: seq<(UnitName, nat)>;
    content, receiptOriginal, err := CaptureReceipt(host, mode, receipt);
    if err.Some? { return; }
    originals, err := CaptureOriginals(host, m);
    if err.Some? { return; }
    shadows, err := CaptureShadows(host, m);
    if err.Some? { return; }
    states, err := CaptureStates(host, StateNames(mode, m));
    if err.Some? { return; }
    processes := [];
    if ProvesProcesses(mode) {
      processes, err := CaptureProcesses(host, m);
      if err.Some? { return; }
    }
    c := Captured(originals, shadows, states, content, receiptOriginal, processes);
  }

  method Prepare(host: Host, m: Manifest, mode: InstallMode, receipt: nat)
    returns (c: Captured, err: Option<Exc>)
    modifies host`script, host`nextId, host.guard`count
    ensures old(host.nextId) <= host.nextId
    ensures err.Some? ==> err.value.Exc? && old(host.nextId) <= err.value.id < host.nextId
    ensures err.None? ==> CapturedFrom(c, m, mode, host.world) && ModeFits(mode, m)
    ensures err.None? && WritesReceipt(mode) ==> c.receiptContent == Some(receipt)
    ensures old(host.Quiet()) ==> host.Quiet() && (Capturable(m, mode, host.world) ==> err.None?)
  {
    ModeAdmitsIffFits(mode, m);
    StatesToRead(mode, m, host.world);
    c := Captured([], [], [], None, None, []);
    err := host.Check(ModeAdmits(mode, m));
    if err.None? {
      c, err := CaptureParts(host, m, mode, receipt);
    }
  }
}
