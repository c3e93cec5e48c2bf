/**
 The host an install runs on. Every call to a port may raise, SIGINT may arrive during every call, and a
 changing call that raises leaves the managed components in any state whatever.
 */
module InstallHosts {
  import opened Wrappers
  import opened InstallPlans
  import opened InstallApply

  datatype Kind = Termination | Transaction | Ordinary

  /** An exception object; two exceptions are the same object exactly if their identities agree. */
  datatype Exc = Exc(kind: Kind, id: nat) | SafetyUnproven

  /** The caller's handler for SIGINT; a foreign one was not installed from Python and cannot be set back. */
  datatype Handler = Ignore | Default | Custom(raises: Option<Kind>) | Foreign

  /** What a SIGINT raises while the handler is in force. */
  function RaisedBy(h: Handler): Option<Kind> {
    match h
    case Ignore => None
    case Default => Some(Termination)
    case Custom(raises) => raises
    case Foreign => None
  }

  /**
   What the outside does during one port call: signals, a fault, whether a call that returns has done its work,
   and what the components look like if it has not.
   */
  datatype Happening = Happening(signals: nat, fault: Option<Kind>, effective: bool, wreck: World)

  /** What happens when a lock is left: signals, a fault, and whether the lock swallows the exception that leaves it. */
  datatype Exit = Exit(signals: nat, fault: Option<Kind>, swallows: bool)

  /**
   What happens when the guard is closed: signals that are still held back, whether SIGINT cannot be given back,
   signals before and during the settlement that follows, whether memory runs out between them, and signals while a
   termination is already being handled.
   */
  datatype Closing = Closing(held: nat, fails: bool, signals: nat, exhausted: bool, later: nat, again: nat)

  const Calm := Closing(0, false, 0, false, 0, 0)

  /** After the closing a SIGINT raises: the handler is back, and it is one that raises. */
  predicate Raises(h: Handler, c: Closing) {
    !c.fails && RaisedBy(h).Some?
  }

  /** What interrupts the settlement. */
  function Interruption(h: Handler, c: Closing): Option<Kind> {
    if Raises(h, c) && c.signals > 0 then RaisedBy(h)
    else if c.exhausted then Some(Termination)
    else if Raises(h, c) && c.later > 0 then RaisedBy(h)
    else None
  }

  /**
   The outcome of the transaction is lost: the handler cannot be set back, or it raises anything but a termination
   during the settlement, or it raises once more while a termination is being handled.
   */
  predicate Displaces(h: Handler, c: Closing) {
    || h == Foreign
    || (&& Interruption(h, c).Some?
        && (Interruption(h, c).value != Termination || (Raises(h, c) && c.again > 0)))
  }

  /**
   Told handler by handler. A handler that does not raise loses nothing, a foreign one always. With one that raises a
   termination, the default one among them, it takes two events: one during the settlement and one more while it is
   being handled. Of any other exception one is enough, unless memory ran out before it.
   */
  lemma DisplacesByHandler(h: Handler, c: Closing)
    ensures Displaces(h, c) <==>
            match h
            case Ignore => false
            case Foreign => true
            case Default => !c.fails && (c.signals > 0 || c.exhausted || c.later > 0) && c.again > 0
            case Custom(None) => false
            case Custom(Some(kind)) =>
              !c.fails && if kind == Termination then (c.signals > 0 || c.exhausted || c.later > 0) && c.again > 0
                          else if c.signals > 0 || !c.exhausted then c.signals > 0 || c.later > 0
                          else c.again > 0
  {
  }

  /** What a changing port may touch as long as it does not raise. */
  datatype Component = Files | Loaded | Shadows | Enablement | Activity | Receipt

  function Overlay(part: Component, w: World, from: World): World {
    match part
    case Files => w.(files := from.files)
    case Loaded => w.(loaded := from.loaded)
    case Shadows => w.(shadows := from.shadows)
    case Enablement => w.(enabled := from.enabled)
    case Activity => w.(running := from.running, processes := from.processes)
    case Receipt => w.(receipt := from.receipt)
  }

  datatype Command =
    | EnableUnitFiles(units: seq<UnitName>)
    | DisableUnitFile(unit: UnitName)
    | RestartServices(units: seq<UnitName>)
    | StopService(unit: UnitName)
    | ReloadManager

  function Named(c: Command): seq<UnitName> {
    match c
    case EnableUnitFiles(units) => units
    case DisableUnitFile(u) => [u]
    case RestartServices(units) => units
    case StopService(u) => [u]
    case ReloadManager => []
  }

  /** What the service manager does when it obeys the command. */
  function Obeyed(c: Command, w: World): World {
    match c
    case EnableUnitFiles(units) => RunSteps(Enables(units), w)
    case DisableUnitFile(u) => w.(enabled := w.enabled - {u})
    case RestartServices(units) => RunSteps(Restarts(units), w)
    case StopService(u) => w.(running := w.running - {u}, processes := w.processes[u := ProcessOf(w, u) + 1])
    case ReloadManager => w.(loaded := Visible(w))
  }

  /** The component that the command is about. */
  function PartOfCommand(c: Command): Component {
    match c
    case EnableUnitFiles(_) => Enablement
    case DisableUnitFile(_) => Enablement
    case RestartServices(_) => Activity
    case StopService(_) => Activity
    case ReloadManager => Loaded
  }

  /** The commands that an install in this mode may give to the service manager. */
  predicate Allowed(mode: InstallMode, c: Command) {
    && (StaysPassive(mode) ==> !c.RestartServices? && !c.StopService?)
    && (mode == MaintenanceStage ==> forall u | u in Named(c) :: u !in DEFERRED)
  }

  predicate OnlyAllowed(mode: InstallMode, before: seq<Command>, after: seq<Command>) {
    && before <= after
    && (forall i | |before| <= i < |after| :: Allowed(mode, after[i]))
  }

  lemma CommandsStayWithinPart(c: Command, w: World)
    ensures Overlay(PartOfCommand(c), w, Obeyed(c, w)) == Obeyed(c, w)
  {
    match c
    case EnableUnitFiles(units) => EnablesOnly(units, w);
    case RestartServices(units) => RestartsOnly(units, w);
    case _ =>
  }

  class DeferredSigintGuard {
    var previousHandler: Handler
    var armed: bool
    var count: nat

    constructor ()
      ensures !armed && count == 0
    {
      previousHandler, armed, count := Default, false, 0;
    }

    method Record(signals: nat)
      modifies `count
      ensures count == old(count) + signals
    {
      count := count + signals;
    }
  }

  class Host {
    var world: World
    var script: seq<Happening>
    var exits: seq<Exit>
    var log: seq<Command>
    var nextId: nat
    var handler: Handler
    var closing: Closing
    var replays: nat
    const guard: DeferredSigintGuard

    constructor (world: World, script: seq<Happening>, exits: seq<Exit>, handler: Handler, closing: Closing)
      ensures this.world == world && this.script == script && this.exits == exits
      ensures this.handler == handler && this.closing == closing
      ensures fresh(guard) && !guard.armed && guard.count == 0
      ensures log == [] && replays == 0 && nextId == 0
    {
      guard := new DeferredSigintGuard();
      this.world, this.script, this.exits, this.handler, this.closing := world, script, exits, handler, closing;
      log, nextId, replays := [], 0, 0;
    }

    /** No port call is going to go wrong, and no SIGINT is waiting. */
    predicate Quiet()
      reads this, guard
    {
      script == [] && guard.count == 0
    }

    /** An armed guard keeps the caller's handler. */
    predicate Kept()
      reads this, guard
    {
      guard.armed ==> guard.previousHandler == handler
    }

    method NewError(kind: Kind) returns (e: Exc)
      modifies `nextId
      ensures e == Exc(kind, old(nextId)) && nextId == old(nextId) + 1
    {
      e := Exc(kind, nextId);
      nextId := nextId + 1;
    }

    method Next() returns (h: Happening)
      modifies `script
      ensures old(script) == [] ==> h.signals == 0 && h.fault.None? && h.effective && script == []
    {
      if script == [] {
        h := Happening(0, None, true, world);
      } else {
        h, script := script[0], script[1..];
      }
    }

    /** A port call. While the guard is armed a SIGINT is only counted, otherwise the caller's handler decides. */
    method Call() returns (err: Option<Exc>, h: Happening)
      modifies `script, `nextId, guard`count
      ensures old(nextId) <= nextId
      ensures err.Some? ==> err.value.Exc? && old(nextId) <= err.value.id < nextId
      ensures old(Quiet()) ==> Quiet() && err.None?
      ensures !guard.armed ==> guard.count == old(guard.count)
      ensures old(guard.count) <= guard.count
      ensures old(Quiet()) ==> h.effective
      ensures h.fault.Some? ==> err.Some? && err.value.kind == h.fault.value
      ensures h.fault.None? && (guard.armed || h.signals == 0) ==> err.None?
      ensures h.fault.None? && !guard.armed && h.signals > 0 ==>
                match handler
                case Default => err.Some? && err.value.kind == Termination
                case Custom(raises) => raises == if err.Some? then Some(err.value.kind) else None
                case _ => err.None?
    {
      h := Next();
      err := None;
      if guard.armed {
        guard.Record(h.signals);
      }
      if h.fault.Some? {
        var e := NewError(h.fault.value);
        err := Some(e);
      } else if !guard.armed && h.signals > 0 && RaisedBy(handler).Some? {
        var e := NewError(RaisedBy(handler).value);
        err := Some(e);
      }
    }

    /** A port call that only reads, and that reports failure unless `holds`. */
    method Check(holds: bool) returns (err: Option<Exc>)
      modifies `script, `nextId, guard`count
      ensures old(nextId) <= nextId
      ensures err.Some? ==> err.value.Exc? && old(nextId) <= err.value.id < nextId
      ensures err.None? ==> holds
      ensures old(Quiet()) ==> Quiet() && (holds ==> err.None?)
      ensures !guard.armed ==> guard.count == old(guard.count)
    {
      var h;
      err, h := Call();
      if err.None? && !holds {
        var e := NewError(Transaction);
        err := Some(e);
      }
    }

    /**
     A port call that is to move one component to its value in `next`. If it raises, nothing is known; if it
     returns, it has touched nothing but that component, which need not mean that it has done its work.
     */
    method Change(part: Component, next: World) returns (err: Option<Exc>)
      modifies `world, `script, `nextId, guard`count
      ensures old(nextId) <= nextId
      ensures err.Some? ==> err.value.Exc? && old(nextId) <= err.value.id < nextId
      ensures err.None? ==> world == Overlay(part, old(world), world)
      ensures old(Quiet()) ==> Quiet() && err.None? && world == Overlay(part, old(world), next)
      ensures !guard.armed ==> guard.count == old(guard.count)
    {
      var h;
      err, h := Call();
      world := if err.Some? then h.wreck else Overlay(part, world, if h.effective then next else h.wreck);
    }

    /**
     A command to the service manager; it is on record even if it fails. `known`: the manager knows the units that are
     named, and otherwise does nothing.
     */
    method Systemctl(command: Command, known: bool) returns (err: Option<Exc>)
      modifies `world, `script, `nextId, `log, guard`count
      ensures old(nextId) <= nextId
      ensures err.Some? ==> err.value.Exc? && old(nextId) <= err.value.id < nextId
      ensures err.None? ==> world == Overlay(PartOfCommand(command), old(world), world)
      ensures log == old(log) + [command]
      ensures old(Quiet()) ==>
                Quiet() && err.None? && world == if known then Obeyed(command, old(world)) else old(world)
      ensures !guard.armed ==> guard.count == old(guard.count)
    {
      log := log + [command];
      CommandsStayWithinPart(command, world);
      err := Change(PartOfCommand(command), if known then Obeyed(command, world) else world);
    }

    /** Leaving a lock lets the pending exception pass, swallows it, or raises a new one. */
    method ExitLock(pending: Option<Exc>) returns (err: Option<Exc>)
      modifies `exits, `nextId, guard`count
      ensures old(nextId) <= nextId
      ensures err == pending || err.None? || (err.value.Exc? && old(nextId) <= err.value.id < nextId)
      ensures !guard.armed ==> guard.count == old(guard.count)
      ensures old(exits) == [] ==> exits == [] && guard.count == old(guard.count) && err == pending
      ensures old(exits) != [] ==> exits == old(exits)[1..] && Leaves(old(exits)[0], pending, err)
      ensures old(exits) != [] && guard.armed ==> guard.count == old(guard.count) + old(exits)[0].signals
    {
      err := pending;
      if exits != [] {
        var x := exits[0];
        exits := exits[1..];
        if guard.armed {
          guard.Record(x.signals);
        }
        if x.fault.Some? {
          var e := NewError(x.fault.value);
          err := Some(e);
        } else if !guard.armed && x.signals > 0 && RaisedBy(handler).Some? {
          var e := NewError(RaisedBy(handler).value);
          err := Some(e);
        } else if x.swallows {
          err := None;
        }
      }
    }

    /** What can leave a lock while the guard counts the signals. */
    predicate Leaves(x: Exit, pending: Option<Exc>, err: Option<Exc>)
      reads guard
    {
      && (x.fault.Some? ==> err.Some? && err.value.Exc? && err.value.kind == x.fault.value)
      && (x.fault.None? && guard.armed ==> err == if x.swallows then None else pending)
    }

    method Arm() returns (err: Option<Exc>)
      modifies `script, `nextId, guard
      ensures old(nextId) <= nextId
      ensures err.Some? ==> err.value.Exc? && old(nextId) <= err.value.id < nextId
      ensures err.None? ==> guard.armed
      ensures err.None? && !old(guard.armed) ==> guard.previousHandler == handler
      ensures old(Kept()) ==> Kept()
      ensures old(Quiet()) ==> Quiet() && err.None?
    {
      if guard.armed {
        return None;
      }
      var h;
      err, h := Call();
      if err.None? {
        guard.previousHandler, guard.armed := handler, true;
      }
    }

    /**
     Gives SIGINT back to the handler from before. A failure of the system call is returned; that a foreign handler
     cannot be set is an exception that comes out of the call.
     */
    method Close() returns (failed: Option<Exc>, raised: Option<Exc>)
      modifies `nextId, guard
      ensures !guard.armed && guard.previousHandler == old(guard.previousHandler)
      ensures guard.count == old(guard.count) + if old(guard.armed) then closing.held else 0
      ensures raised.Some? <==> old(guard.armed) && guard.previousHandler == Foreign
      ensures failed.Some? <==> old(guard.armed) && guard.previousHandler != Foreign && closing.fails
      ensures raised.Some? ==> raised.value.Exc? && raised.value.kind == Ordinary
      ensures failed.Some? ==> failed.value.Exc? && failed.value.kind == Transaction
    {
      failed, raised := None, None;
      if !guard.armed {
        return;
      }
      guard.Record(closing.held);
      if guard.previousHandler == Foreign {
        var e := NewError(Ordinary);
        raised := Some(e);
      } else if closing.fails {
        var e := NewError(Transaction);
        failed := Some(e);
      }
      guard.armed := false;
    }

    /** Signals with the guard closed; they still end in the guard if SIGINT could not be given back. */
    method Signalled(signals: nat, givenBack: bool) returns (err: Option<Exc>)
      modifies `nextId
      ensures err.Some? <==> signals > 0 && givenBack && RaisedBy(handler).Some?
      ensures err.Some? ==> err.value.Exc? && Some(err.value.kind) == RaisedBy(handler)
    {
      err := None;
      if signals > 0 && givenBack && RaisedBy(handler).Some? {
        var e := NewError(RaisedBy(handler).value);
        err := Some(e);
      }
    }

    method RaiseIfPending() returns (err: Option<Exc>)
      modifies `nextId
      ensures old(nextId) <= nextId
      ensures err.Some? <==> guard.count > 0
      ensures err.Some? ==> err.value == Exc(Termination, old(nextId)) && err.value.id < nextId
    {
      err := None;
      if guard.count > 0 {
        var e := NewError(Termination);
        err := Some(e);
      }
    }

    /** The handler from before sees one SIGINT, however many arrived. */
    method ReplayOnce() returns (err: Option<Exc>)
      modifies `nextId, `replays
      ensures replays == old(replays) + 1
      ensures err.None? <==> guard.previousHandler == Ignore || guard.previousHandler == Custom(None)
      ensures err.Some? ==> err.value.Exc?
    {
      replays := replays + 1;
      err := None;
      match guard.previousHandler
      case Ignore =>
      case Default =>
        var e := NewError(Termination);
        err := Some(e);
      case Foreign =>
        var e := NewError(Termination);
        err := Some(e);
      case Custom(raises) =>
        if raises.Some? {
          var e := NewError(raises.value);
          err := Some(e);
        }
    }
  }
}
