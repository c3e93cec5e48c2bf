/** Whatever point the apply phase reached, the frozen compensation plan brings every component back. */
module InstallCoverage {
  import opened Wrappers
  import opened InstallPlans

  ghost predicate Functional<T>(s: seq<(UnitName, T)>) {
    forall x, y | x in s && y in s && x.0 == y.0 :: x == y
  }

  ghost predicate HasKey<T(!new)>(s: seq<(UnitName, T)>, u: UnitName) {
    exists x :: x in s && x.0 == u
  }

  lemma {:induction false} RunConcat(p: seq<Action>, q: seq<Action>, w: World, tolerant: bool)
    ensures var first := RunPlan(p, w, tolerant);
            var second := RunPlan(q, first.0, tolerant);
            RunPlan(p + q, w, tolerant) == (second.0, first.1 && second.1)
    decreases |p|
  {
    if p == [] {
      assert p + q == q;
    } else {
      assert (p + q)[0] == p[0] && (p + q)[1..] == p[1..] + q;
      var next := if IsProof(p[0]) || Execute(p[0], w, tolerant).None? then w else Execute(p[0], w, tolerant).value;
      RunConcat(p[1..], q, next, tolerant);
    }
  }

  lemma {:induction false} RunProofs(p: seq<Action>, w: World, tolerant: bool)
    requires forall a | a in p :: IsProof(a)
    ensures RunPlan(p, w, tolerant) == (w, AllHold(p, w))
  {
    if p != [] {
      RunProofs(p[1..], w, tolerant);
      assert p == [p[0]] + p[1..];
    }
  }

  /** The service manager accepts a command for every unit of the list. */
  ghost predicate Reachable<T(!new)>(s: seq<(UnitName, T)>, w: World, tolerant: bool) {
    tolerant || forall x | x in s :: x.0 in w.files
  }

  // --- one phase at a time ------------------------------------------------------------------

  ghost predicate FileStatesSet(s: seq<(UnitName, UnitState)>, w: World, tolerant: bool, t: World) {
    && t == w.(enabled := t.enabled)
    && (forall x | x in s :: x.0 in t.enabled <==>
          if tolerant || x.0 in w.files then x.1.fileState == Enabled else x.0 in w.enabled)
    && (forall u | !HasKey(s, u) :: u in t.enabled <==> u in w.enabled)
  }

  /** The world after one action of the plan, whether or not it failed. */
  function After(a: Action, w: World, tolerant: bool): World
    requires !IsProof(a)
  {
    match Execute(a, w, tolerant)
    case Some(next) => next
    case None => w
  }

  lemma ReachableUnfolds<T(!new)>(s: seq<(UnitName, T)>, w: World, next: World, tolerant: bool)
    requires s != [] && next.files == w.files
    ensures Reachable(s, w, tolerant) <==> (tolerant || s[0].0 in w.files) && Reachable(s[1..], next, tolerant)
  {
    assert s == [s[0]] + s[1..];
  }

  lemma {:induction false} RunFileStates(s: seq<(UnitName, UnitState)>, w: World, tolerant: bool) returns (t: World)
    requires Functional(s)
    ensures RunPlan(FileStates(s), w, tolerant) == (t, Reachable(s, w, tolerant))
    ensures FileStatesSet(s, w, tolerant, t)
  {
    if s == [] {
      t := w;
    } else {
      var next := After(RestoreFileState(s[0].0, s[0].1), w, tolerant);
      assert FileStates(s)[0] == RestoreFileState(s[0].0, s[0].1) && FileStates(s)[1..] == FileStates(s[1..]);
      TailIsFunctional(s);
      t := RunFileStates(s[1..], next, tolerant);
      ReachableUnfolds(s, w, next, tolerant);
      FileStatesExtend(s, w, tolerant, next, t);
    }
  }

  lemma FileStatesExtend(s: seq<(UnitName, UnitState)>, w: World, tolerant: bool, next: World, t: World)
    requires s != [] && Functional(s)
    requires next == After(RestoreFileState(s[0].0, s[0].1), w, tolerant)
    requires FileStatesSet(s[1..], next, tolerant, t)
    ensures FileStatesSet(s, w, tolerant, t)
  {
    HeadAndTail(s);
  }

  ghost predicate ActivitiesSet(s: seq<(UnitName, UnitState)>, w: World, tolerant: bool, t: World) {
    && t == w.(running := t.running, processes := t.processes)
    && (forall x | x in s :: x.0 in t.running <==>
          if tolerant || x.0 in w.files then x.1.active else x.0 in w.running)
    && (forall u | !HasKey(s, u) :: u in t.running <==> u in w.running)
  }

  lemma {:induction false} RunActivities(s: seq<(UnitName, UnitState)>, w: World, tolerant: bool) returns (t: World)
    requires Functional(s)
    ensures RunPlan(Activities(s), w, tolerant) == (t, Reachable(s, w, tolerant))
    ensures ActivitiesSet(s, w, tolerant, t)
  {
    if s == [] {
      t := w;
    } else {
      var next := After(RestoreActivity(s[0].0, s[0].1), w, tolerant);
      assert Activities(s)[0] == RestoreActivity(s[0].0, s[0].1) && Activities(s)[1..] == Activities(s[1..]);
      TailIsFunctional(s);
      t := RunActivities(s[1..], next, tolerant);
      ReachableUnfolds(s, w, next, tolerant);
      ActivitiesExtend(s, w, tolerant, next, t);
    }
  }

  lemma ActivitiesExtend(s: seq<(UnitName, UnitState)>, w: World, tolerant: bool, next: World, t: World)
    requires s != [] && Functional(s)
    requires next == After(RestoreActivity(s[0].0, s[0].1), w, tolerant)
    requires ActivitiesSet(s[1..], next, tolerant, t)
    ensures ActivitiesSet(s, w, tolerant, t)
  {
    HeadAndTail(s);
  }

  lemma {:induction false} RunUnitRestores(s: seq<(UnitName, Option<UnitFile>)>, w: World, tolerant: bool)
    returns (t: World)
    requires Functional(s)
    ensures RunPlan(UnitRestores(s), w, tolerant) == (t, true)
    ensures t == w.(files := t.files)
    ensures forall x | x in s :: FileOf(t, x.0) == x.1
    ensures forall u | !HasKey(s, u) :: FileOf(t, u) == FileOf(w, u)
  {
    if s == [] {
      t := w;
    } else {
      var next := SetFile(w, s[0].0, s[0].1);
      assert UnitRestores(s)[0] == RestoreUnit(s[0].0, s[0].1) && UnitRestores(s)[1..] == UnitRestores(s[1..]);
      t := RunUnitRestores(s[1..], next, tolerant);
      HeadAndTail(s);
    }
  }

  /** A shadow as it was captured, or as the retirement leaves it. */
  predicate CapturedOrRetired(current: Shadow, original: Shadow) {
    current == original || (original.active.Some? && current == Shadow(None, original.active))
  }

  /** Every drop-in is as captured or as the retirement leaves it. */
  ghost predicate Restorable(shadows: seq<(UnitName, Shadow)>, w: World) {
    forall x | x in shadows ::
      CapturedOrRetired(ShadowOf(w, x.0), x.1) && (x.1.active.None? || x.1.archive.None?)
  }

  lemma {:induction false} RunShadowRestores(s: seq<(UnitName, Shadow)>, w: World, tolerant: bool) returns (t: World)
    requires Functional(s) && Restorable(s, w)
    ensures RunPlan(ShadowRestores(s), w, tolerant) == (t, true)
    ensures t == w.(shadows := t.shadows)
    ensures forall x | x in s :: ShadowOf(t, x.0) == x.1
    ensures forall u | !HasKey(s, u) :: ShadowOf(t, u) == ShadowOf(w, u)
  {
    if s == [] {
      t := w;
    } else {
      var u := s[0].0;
      assert MovedBack(ShadowOf(w, u), s[0].1) == Some(s[0].1);
      var next := w.(shadows := w.shadows[u := s[0].1]);
      assert ShadowRestores(s)[0] == RestoreShadow(s[0].0, s[0].1) && ShadowRestores(s)[1..] == ShadowRestores(s[1..]);
      t := RunShadowRestores(s[1..], next, tolerant);
      HeadAndTail(s);
    }
  }

  lemma TailIsFunctional<T>(s: seq<(UnitName, T)>)
    requires s != [] && Functional(s)
    ensures Functional(s[1..])
  {
  }

  lemma HeadAndTail<T(!new)>(s: seq<(UnitName, T)>)
    requires s != [] && Functional(s)
    ensures Functional(s[1..])
    ensures forall x :: x in s <==> x == s[0] || x in s[1..]
    ensures forall u :: HasKey(s, u) <==> u == s[0].0 || HasKey(s[1..], u)
  {
    assert s == [s[0]] + s[1..];
    assert forall x :: x in s <==> x == s[0] || x in s[1..];
  }

  // --- the whole plan -----------------------------------------------------------------------

  ghost predicate StatesSet(s: seq<(UnitName, UnitState)>, activity: bool, w: World, tolerant: bool, t: World) {
    && t == w.(enabled := t.enabled, running := t.running, processes := t.processes)
    && (!activity ==> t.running == w.running && t.processes == w.processes)
    && (forall x | x in s ::
          && (x.0 in t.enabled <==> if tolerant || x.0 in w.files then x.1.fileState == Enabled else x.0 in w.enabled)
          && (activity ==>
                (x.0 in t.running <==> if tolerant || x.0 in w.files then x.1.active else x.0 in w.running)))
    && (forall u | !HasKey(s, u) :: (u in t.enabled <==> u in w.enabled) && (u in t.running <==> u in w.running))
  }

  lemma RunStateRestores(s: seq<(UnitName, UnitState)>, activity: bool, w: World, tolerant: bool) returns (t: World)
    requires Functional(s)
    ensures RunPlan(StateRestores(s, activity), w, tolerant) == (t, Reachable(s, w, tolerant))
    ensures StatesSet(s, activity, w, tolerant, t)
  {
    t := RunFileStates(s, w, tolerant);
    if activity {
      var next := t;
      t := RunActivities(s, next, tolerant);
      RunConcat(FileStates(s), Activities(s), w, tolerant);
    } else {
      assert StateRestores(s, activity) == FileStates(s);
    }
  }

  ghost predicate FilesRestored(c: Captured, w: World, t: World) {
    && t == w.(files := t.files, shadows := t.shadows, loaded := Visible(t))
    && (forall x | x in c.originals :: FileOf(t, x.0) == x.1)
    && (forall x | x in c.shadows :: ShadowOf(t, x.0) == x.1)
  }

  lemma ReversedKeeps<T(!new)>(s: seq<(UnitName, T)>)
    requires Functional(s)
    ensures Functional(Reversed(s)) && forall x :: x in Reversed(s) <==> x in s
  {
    SameElements(s);
  }

  lemma RunFileRestores(c: Captured, w: World, tolerant: bool) returns (t: World)
    requires Functional(c.originals) && Functional(c.shadows) && Restorable(c.shadows, w)
    ensures RunPlan(FileRestores(c), w, tolerant) == (t, true)
    ensures FilesRestored(c, w, t)
  {
    ReversedKeeps(c.originals);
    ReversedKeeps(c.shadows);
    var units := RunUnitRestores(Reversed(c.originals), w, tolerant);
    var shadows := RunShadowRestores(Reversed(c.shadows), units, tolerant);
    t := shadows.(loaded := Visible(shadows));
    FileRestoresCompose(c, w, tolerant, units, shadows);
  }

  lemma FileRestoresCompose(c: Captured, w: World, tolerant: bool, units: World, shadows: World)
    requires RunPlan(UnitRestores(Reversed(c.originals)), w, tolerant) == (units, true)
    requires RunPlan(ShadowRestores(Reversed(c.shadows)), units, tolerant) == (shadows, true)
    ensures RunPlan(FileRestores(c), w, tolerant) == (shadows.(loaded := Visible(shadows)), true)
  {
    var first := UnitRestores(Reversed(c.originals)) + ShadowRestores(Reversed(c.shadows));
    RunConcat(UnitRestores(Reversed(c.originals)), ShadowRestores(Reversed(c.shadows)), w, tolerant);
    assert [DaemonReload][1..] == [];
    RunConcat(first, [DaemonReload], w, tolerant);
  }

  lemma SameElements<T>(s: seq<T>)
    ensures forall x :: x in Reversed(s) <==> x in s
  {
    forall i | 0 <= i < |s|
      ensures Reversed(s)[|s| - 1 - i] == s[i] && s[i] in Reversed(s)
    {
    }
  }

  /** A unit without a file is as it was in `v`. */
  predicate UntouchedIfAbsent(v: World, w: World, u: UnitName) {
    FileOf(w, u).None? ==> (u in w.enabled <==> u in v.enabled) && (u in w.running <==> u in v.running)
  }

  /**
   What holds at every point of the apply phase: shadows are captured or retired, a passive install left the
   processes alone, and a unit that still has no file is in the state it was captured in.
   */
  ghost predicate Footprint(m: Manifest, mode: InstallMode, v: World, w: World) {
    && (forall u | u in Names(m) :: CapturedOrRetired(ShadowOf(w, u), ShadowOf(v, u)))
    && (StaysPassive(mode) ==> w.running == v.running && w.processes == v.processes)
    && (forall u | u in Names(m) :: UntouchedIfAbsent(v, w, u))
  }

  /** Every unit that had no file when it was captured, and whose state was captured, has one now. */
  ghost predicate NewUnitsInPlace(m: Manifest, mode: InstallMode, v: World, w: World) {
    forall u | u in StateNames(mode, m) && FileOf(v, u).None? :: u in w.files
  }

  lemma CaptureOfFiles(c: Captured, m: Manifest, mode: InstallMode, v: World)
    requires CapturedFrom(c, m, mode, v)
    ensures Functional(c.originals) && Functional(c.shadows)
    ensures forall x | x in c.originals :: x.0 in Names(m) && x.1 == FileOf(v, x.0)
    ensures forall x | x in c.shadows ::
              x.0 in Names(m) && x.1 == ShadowOf(v, x.0) && (x.1.active.None? || x.1.archive.None?)
    ensures forall u | u in Names(m) :: (u, FileOf(v, u)) in c.originals && (u, ShadowOf(v, u)) in c.shadows
  {
    forall i | 0 <= i < |m|
      ensures Names(m)[i] == m[i].name && m[i].name in Names(m)
      ensures c.originals[i] == (m[i].name, FileOf(v, m[i].name)) && c.originals[i] in c.originals
      ensures c.shadows[i] == (m[i].name, ShadowOf(v, m[i].name)) && c.shadows[i] in c.shadows
    {
    }
  }

  lemma CaptureOfStates(c: Captured, m: Manifest, mode: InstallMode, v: World)
    requires CapturedFrom(c, m, mode, v)
    ensures Functional(c.states)
    ensures forall x | x in c.states :: x.0 in StateNames(mode, m) && Some(x.1) == StateOf(v, x.0)
  {
  }

  /** A unit whose state was captured is restored in exactly one of the two phases. */
  lemma CaptureOfState(c: Captured, m: Manifest, mode: InstallMode, v: World, u: UnitName)
    returns (x: (UnitName, UnitState))
    requires CapturedFrom(c, m, mode, v) && u in StateNames(mode, m)
    ensures u in Names(m) && x.0 == u && StateOf(v, u) == Some(x.1)
    ensures FileOf(v, u).None? ==> x in Absent(c.states) && !HasKey(Present(c.states), u)
    ensures FileOf(v, u).Some? ==> x in Present(c.states) && !HasKey(Absent(c.states), u)
  {
    x := EntryOf(c, m, mode, v, u);
    PhasesAreExclusive(c.states, x);
  }

  lemma EntryOf(c: Captured, m: Manifest, mode: InstallMode, v: World, u: UnitName) returns (x: (UnitName, UnitState))
    requires CapturedFrom(c, m, mode, v) && u in StateNames(mode, m)
    ensures u in Names(m) && x.0 == u && StateOf(v, u) == Some(x.1)
    ensures x in c.states && Functional(c.states)
  {
    var i :| 0 <= i < |c.states| && StateNames(mode, m)[i] == u;
    x := c.states[i];
    assert u in Names(m) by { TouchedUnitsAreCaptured(mode, m, u); }
    assert Functional(c.states) by { CaptureOfStates(c, m, mode, v); }
  }

  lemma PhasesAreExclusive(states: seq<(UnitName, UnitState)>, x: (UnitName, UnitState))
    requires Functional(states) && x in states
    ensures x.1.fileState == NotFound ==> x in Absent(states) && !HasKey(Present(states), x.0)
    ensures x.1.fileState != NotFound ==> x in Present(states) && !HasKey(Absent(states), x.0)
  {
  }

  lemma AbsentUnitsAreReachable(c: Captured, m: Manifest, mode: InstallMode, v: World, w: World, tolerant: bool)
    requires CapturedFrom(c, m, mode, v)
    ensures Reachable(Absent(c.states), w, tolerant) <==> tolerant || NewUnitsInPlace(m, mode, v, w)
  {
    CaptureOfStates(c, m, mode, v);
    forall u | u in StateNames(mode, m) && FileOf(v, u).None?
      ensures exists x :: x in Absent(c.states) && x.0 == u
    {
      var x := CaptureOfState(c, m, mode, v, u);
    }
  }

  function WithReceipt(c: Captured, w: World): World {
    if c.receiptContent.Some? then w.(receipt := c.receiptOriginal) else w
  }

  lemma RunReceiptRestore(c: Captured, w: World, tolerant: bool)
    ensures RunPlan(ReceiptRestore(c), w, tolerant) == (WithReceipt(c, w), true)
  {
    assert c.receiptContent.Some? ==> ReceiptRestore(c)[1..] == [];
  }

  lemma RestoresCompose(c: Captured, activity: bool, w: World, tolerant: bool, undone: World, replaced: World, t: World,
                        first: bool, last: bool)
    requires RunPlan(StateRestores(Absent(c.states), activity), WithReceipt(c, w), tolerant) == (undone, first)
    requires RunPlan(FileRestores(c), undone, tolerant) == (replaced, true)
    requires RunPlan(StateRestores(Present(c.states), activity), replaced, tolerant) == (t, last)
    ensures RunPlan(Restores(c, activity), w, tolerant) == (t, first && last)
  {
    var receipt, undo := ReceiptRestore(c), StateRestores(Absent(c.states), activity);
    RunReceiptRestore(c, w, tolerant);
    RunConcat(receipt, undo, w, tolerant);
    RunConcat(receipt + undo, FileRestores(c), w, tolerant);
    RunConcat(receipt + undo + FileRestores(c), StateRestores(Present(c.states), activity), w, tolerant);
  }

  lemma PartsAreFunctional(states: seq<(UnitName, UnitState)>)
    requires Functional(states)
    ensures Functional(Absent(states)) && Functional(Present(states))
  {
  }

  lemma StaysRestorable(c: Captured, w: World, t: World)
    requires Restorable(c.shadows, w) && t.shadows == w.shadows
    ensures Restorable(c.shadows, t)
  {
  }

  /** The three phases one after the other: undo new units, put all files back, restore the old units. */
  lemma RunRestores(c: Captured, activity: bool, w: World, tolerant: bool)
    returns (undone: World, replaced: World, t: World)
    requires Functional(c.originals) && Functional(c.shadows) && Functional(c.states) && Restorable(c.shadows, w)
    ensures RunPlan(Restores(c, activity), w, tolerant)
            == (t, Reachable(Absent(c.states), w, tolerant) && Reachable(Present(c.states), replaced, tolerant))
    ensures StatesSet(Absent(c.states), activity, WithReceipt(c, w), tolerant, undone)
    ensures FilesRestored(c, undone, replaced)
    ensures StatesSet(Present(c.states), activity, replaced, tolerant, t)
  {
    PartsAreFunctional(c.states);
    undone := RunStateRestores(Absent(c.states), activity, WithReceipt(c, w), tolerant);
    StaysRestorable(c, w, undone);
    replaced := RunFileRestores(c, undone, tolerant);
    t := RunStateRestores(Present(c.states), activity, replaced, tolerant);
    RestoresCompose(c, activity, w, tolerant, undone, replaced, t, Reachable(Absent(c.states), w, tolerant),
                    Reachable(Present(c.states), replaced, tolerant));
  }

  /**
   From every point of the apply phase the plan brings all frozen components back, and it reports so, with one
   exception: if the service manager rejects commands for units without a file, then a plan started before all
   new units were written does not count as proven.
   */
  lemma PlanBringsComponentsBack(c: Captured, m: Manifest, mode: InstallMode, v: World, w: World, tolerant: bool)
    returns (t: World)
    requires CapturedFrom(c, m, mode, v) && Footprint(m, mode, v, w)
    ensures RunPlan(BuildCompensationActions(c, RestoresActivity(mode)), w, tolerant)
            == (t, tolerant || NewUnitsInPlace(m, mode, v, w))
    ensures SameComponents(m, mode, v, t) && t.loaded == Visible(t)
  {
    CaptureOfFiles(c, m, mode, v);
    CaptureOfStates(c, m, mode, v);
    var undone, replaced;
    undone, replaced, t := RunRestores(c, RestoresActivity(mode), w, tolerant);
    PresentUnitsAreReachable(c, m, mode, v, undone, replaced);
    ComponentsAreBack(c, m, mode, v, w, tolerant, undone, replaced, t);
    ProofsCoverComponents(c, m, mode, v, t);
    AbsentUnitsAreReachable(c, m, mode, v, w, tolerant);
    RunProofs(Proofs(c), t, tolerant);
    RunConcat(Restores(c, RestoresActivity(mode)), Proofs(c), w, tolerant);
  }

  lemma ComponentsAreBack(c: Captured, m: Manifest, mode: InstallMode, v: World, w: World, tolerant: bool,
                          undone: World, replaced: World, t: World)
    requires CapturedFrom(c, m, mode, v) && Footprint(m, mode, v, w)
    requires StatesSet(Absent(c.states), RestoresActivity(mode), WithReceipt(c, w), tolerant, undone)
    requires FilesRestored(c, undone, replaced)
    requires StatesSet(Present(c.states), RestoresActivity(mode), replaced, tolerant, t)
    ensures SameComponents(m, mode, v, t) && t.loaded == Visible(t)
  {
    FilesAreBack(c, m, mode, v, undone, replaced);
    StatesAreBack(c, m, mode, v, w, tolerant, undone, replaced, t);
    RestIsBack(c, m, mode, v, w, tolerant, undone, replaced, t);
  }

  /** Receipt, processes and the manager's view; the last phase leaves the files alone. */
  lemma RestIsBack(c: Captured, m: Manifest, mode: InstallMode, v: World, w: World, tolerant: bool,
                   undone: World, replaced: World, t: World)
    requires CapturedFrom(c, m, mode, v) && Footprint(m, mode, v, w)
    requires StatesSet(Absent(c.states), RestoresActivity(mode), WithReceipt(c, w), tolerant, undone)
    requires FilesRestored(c, undone, replaced)
    requires StatesSet(Present(c.states), RestoresActivity(mode), replaced, tolerant, t)
    ensures t.files == replaced.files && t.shadows == replaced.shadows && t.loaded == Visible(t)
    ensures WritesReceipt(mode) ==> v.receipt == t.receipt
    ensures ProvesProcesses(mode) ==> v.processes == t.processes
  {
  }

  lemma FootprintOfUnit(m: Manifest, mode: InstallMode, v: World, w: World, u: UnitName)
    requires Footprint(m, mode, v, w) && u in StateNames(mode, m)
    ensures u in Names(m) && UntouchedIfAbsent(v, w, u)
    ensures !RestoresActivity(mode) ==> w.running == v.running
  {
    TouchedUnitsAreCaptured(mode, m, u);
  }

  lemma StatesAreBack(c: Captured, m: Manifest, mode: InstallMode, v: World, w: World, tolerant: bool,
                      undone: World, replaced: World, t: World)
    requires CapturedFrom(c, m, mode, v) && Footprint(m, mode, v, w)
    requires StatesSet(Absent(c.states), RestoresActivity(mode), WithReceipt(c, w), tolerant, undone)
    requires replaced == undone.(files := replaced.files, shadows := replaced.shadows, loaded := Visible(replaced))
    requires forall u | u in Names(m) :: FileOf(v, u) == FileOf(replaced, u)
    requires StatesSet(Present(c.states), RestoresActivity(mode), replaced, tolerant, t)
    ensures forall u | u in StateNames(mode, m) :: StateOf(v, u) == StateOf(t, u)
  {
    forall u | u in StateNames(mode, m)
      ensures StateOf(v, u) == StateOf(t, u)
    {
      FootprintOfUnit(m, mode, v, w, u);
      StateOfUnitIsBack(c, m, mode, v, w, tolerant, undone, replaced, t, u);
    }
  }

  lemma StateOfUnitIsBack(c: Captured, m: Manifest, mode: InstallMode, v: World, w: World, tolerant: bool,
                          undone: World, replaced: World, t: World, u: UnitName)
    requires CapturedFrom(c, m, mode, v) && u in StateNames(mode, m)
    requires UntouchedIfAbsent(v, w, u) && (!RestoresActivity(mode) ==> w.running == v.running)
    requires StatesSet(Absent(c.states), RestoresActivity(mode), WithReceipt(c, w), tolerant, undone)
    requires replaced == undone.(files := replaced.files, shadows := replaced.shadows, loaded := Visible(replaced))
    requires FileOf(v, u) == FileOf(replaced, u)
    requires StatesSet(Present(c.states), RestoresActivity(mode), replaced, tolerant, t)
    ensures StateOf(v, u) == StateOf(t, u)
  {
    var x := CaptureOfState(c, m, mode, v, u);
    StateIsBack(Absent(c.states), Present(c.states), RestoresActivity(mode), x, v, WithReceipt(c, w), tolerant,
                undone, replaced, t);
  }

  lemma StateIsBack(absent: seq<(UnitName, UnitState)>, present: seq<(UnitName, UnitState)>, activity: bool,
                    x: (UnitName, UnitState), v: World, w: World, tolerant: bool,
                    undone: World, replaced: World, t: World)
    requires StateOf(v, x.0) == Some(x.1)
    requires FileOf(v, x.0).None? ==> x in absent && !HasKey(present, x.0)
    requires FileOf(v, x.0).Some? ==> x in present && !HasKey(absent, x.0)
    requires UntouchedIfAbsent(v, w, x.0)
    requires !activity ==> w.running == v.running
    requires StatesSet(absent, activity, w, tolerant, undone)
    requires replaced == undone.(files := replaced.files, shadows := replaced.shadows, loaded := Visible(replaced))
    requires FileOf(v, x.0) == FileOf(replaced, x.0)
    requires StatesSet(present, activity, replaced, tolerant, t)
    ensures StateOf(v, x.0) == StateOf(t, x.0)
  {
  }

  lemma FilesAreBack(c: Captured, m: Manifest, mode: InstallMode, v: World, undone: World, replaced: World)
    requires CapturedFrom(c, m, mode, v) && FilesRestored(c, undone, replaced)
    ensures forall u | u in Names(m) :: FileOf(v, u) == FileOf(replaced, u) && ShadowOf(v, u) == ShadowOf(replaced, u)
  {
    CaptureOfFiles(c, m, mode, v);
    forall u | u in Names(m)
      ensures FileOf(v, u) == FileOf(replaced, u) && ShadowOf(v, u) == ShadowOf(replaced, u)
    {
      assert (u, FileOf(v, u)) in c.originals && (u, ShadowOf(v, u)) in c.shadows;
    }
  }

  lemma PresentUnitsAreReachable(c: Captured, m: Manifest, mode: InstallMode, v: World, undone: World, replaced: World)
    requires CapturedFrom(c, m, mode, v) && FilesRestored(c, undone, replaced)
    ensures Reachable(Present(c.states), replaced, false)
  {
    forall x | x in Present(c.states)
      ensures x.0 in replaced.files
    {
      var file := FileOfPresent(c, m, mode, v, x);
    }
  }

  lemma FileOfPresent(c: Captured, m: Manifest, mode: InstallMode, v: World, x: (UnitName, UnitState))
    returns (file: UnitFile)
    requires CapturedFrom(c, m, mode, v)
    requires x in Present(c.states)
    ensures (x.0, Some(file)) in c.originals
  {
    CaptureOfStates(c, m, mode, v);
    TouchedUnitsAreCaptured(mode, m, x.0);
    file := v.files[x.0];
    var i :| 0 <= i < |m| && m[i].name == x.0;
    assert c.originals[i] == (x.0, Some(file));
  }
}
