/**
 Building a content-addressed runtime base in place, under an `.incomplete` marker, on a disk that may lose
 everything that was not synchronised. A run may be cut off after any step.
 */
module RuntimeBases {
  import opened Wrappers

  datatype Stage = AfterMarker | AfterVenv | AfterInstall | AfterBaseJson | Torn

  datatype LockInfo = LockInfo(requirements: nat, index: nat, artifacts: nat)

  /** The identifier of a base is the digest of its requirements and of the interpreter they are built for. */
  datatype BaseId = BaseId(requirements: nat, abi: nat)

  datatype Metadata = Metadata(id: BaseId, lock: LockInfo, abi: nat, freeze: nat, inventory: nat)

  /** The files below the directory: the saved lock, the environment, and its inventory if it can be verified. */
  datatype Content = Content(lock: Option<LockInfo>, trusted: bool, sealed: bool, inventory: Option<nat>)

  datatype Directory = Directory(marker: Option<Stage>, metadata: Option<Metadata>, content: Content)

  const EMPTY: Content := Content(None, false, false, None)

  /** Metadata and no marker: all that a reader sees at first sight. */
  predicate LooksComplete(d: Directory) {
    d.marker.None? && d.metadata.Some?
  }

  /** The full verification of a directory against its metadata. */
  predicate Verifies(id: BaseId, abi: nat, m: Metadata, content: Content) {
    && content.sealed && content.trusted
    && content.lock == Some(m.lock)
    && m.id == id && m.abi == abi && BaseId(m.lock.requirements, abi) == id
    && content.inventory == Some(m.inventory)
  }

  /** The lock, the interpreter and the inventory are those that the metadata records, and the tree is to be trusted. */
  predicate AsRecorded(id: BaseId, m: Metadata, content: Content) {
    && content == Content(Some(m.lock), true, true, Some(m.inventory))
    && m.id == id && id == BaseId(m.lock.requirements, m.abi)
  }

  lemma VerifiedIsAsRecorded(id: BaseId, abi: nat, m: Metadata, content: Content)
    ensures Verifies(id, abi, m, content) <==> m.abi == abi && AsRecorded(id, m, content)
  {
  }

  datatype Outcome = Built(metadata: Metadata) | Existing(metadata: Metadata) | Failed | Cut

  /** What the outside contributes to a build: the trees after each stage, and the frozen package list. */
  datatype Supply = Supply(venv: Content, installed: Content, probed: Content, freeze: nat)

  /** A run with its build input, and whether and how power is lost after it. */
  datatype Run = Run(lock: LockInfo, abi: nat, supply: Supply, power: nat, lost: bool, leftPresent: bool,
                     left: Directory)

  class BaseStore {
    const id: BaseId
    var present: bool
    var directory: Directory
    var isolated: seq<Directory>
    /** The number of steps until the run is cut off. */
    var power: nat
    /** What each part of the directory may be after a loss of power; unsettled content may be anything. */
    var presences: set<bool>
    var markers: set<Option<Stage>>
    var metadatas: set<Option<Metadata>>
    var settled: bool

    /** What is there now is among what may be there after a loss of power. */
    ghost predicate Valid()
      reads this
    {
      && present in presences
      && (!present ==> presences == {false})
      && (present ==> directory.marker in markers && directory.metadata in metadatas)
    }

    /** Marker discipline: what looks complete, now or after a loss of power, passes full verification. */
    ghost predicate Disciplined()
      reads this
    {
      && Valid()
      && (present && None in markers ==>
            forall m | Some(m) in metadatas :: settled && Verifies(id, m.abi, m, directory.content))
    }

    /** A loss of power now would change nothing. */
    ghost predicate Durable()
      reads this
    {
      && presences == {present}
      && (present ==> markers == {directory.marker} && metadatas == {directory.metadata} && settled)
    }

    constructor (id: BaseId)
      ensures Disciplined() && Durable() && !present && isolated == [] && this.id == id
    {
      this.id := id;
      present, directory, isolated, power := false, Directory(None, None, EMPTY), [], 0;
      presences, markers, metadatas, settled := {false}, {}, {}, true;
    }

    /** The disk keeps some combination of what may be left of each part; `left` is the one it tries. */
    method LosePower(leftPresent: bool, left: Directory)
      requires Valid()
      modifies this`present, this`directory, this`presences, this`markers, this`metadatas, this`settled
      ensures Valid() && Durable()
      ensures old(Disciplined()) ==> Disciplined()
    {
      if present && leftPresent in presences {
        present := leftPresent;
      }
      if present && left.marker in markers && left.metadata in metadatas {
        directory := Directory(left.marker, left.metadata, if settled then directory.content else left.content);
      }
      presences, markers, metadatas, settled := {present}, {directory.marker}, {directory.metadata}, true;
    }

    /** One step of a run; when the power is used up the run is over. */
    method Step() returns (alive: bool)
      modifies this`power
      ensures alive <==> old(power) > 0
      ensures power == if alive then old(power) - 1 else 0
    {
      alive := power > 0;
      if alive {
        power := power - 1;
      }
    }

    method WriteMarker(stage: Stage)
      requires Valid() && present
      modifies this`directory, this`markers
      ensures directory == old(directory).(marker := Some(stage))
      ensures markers == old(markers) + {Some(Torn), Some(stage)}
    {
      // The marker is overwritten in place, so that a half-written stage may be left.
      directory, markers := directory.(marker := Some(stage)), markers + {Some(Torn), Some(stage)};
    }

    method WriteMetadata(m: Metadata)
      requires Valid() && present
      modifies this`directory, this`metadatas
      ensures directory == old(directory).(metadata := Some(m)) && metadatas == old(metadatas) + {Some(m)}
    {
      directory, metadatas := directory.(metadata := Some(m)), metadatas + {Some(m)};
    }

    method WriteContent(content: Content)
      requires Valid() && present
      modifies this`directory, this`settled
      ensures directory == old(directory).(content := content) && !settled
    {
      directory, settled := directory.(content := content), false;
    }

    /** Makes the entries of the directory durable, but not what is below it. */
    method SyncDirectory()
      requires Valid() && present
      modifies this`markers, this`metadatas
      ensures markers == {directory.marker} && metadatas == {directory.metadata}
    {
      markers, metadatas := {directory.marker}, {directory.metadata};
    }

    method SealDurableTree()
      requires Valid() && present
      modifies this`markers, this`metadatas, this`settled
      ensures markers == {directory.marker} && metadatas == {directory.metadata} && settled
    {
      SyncDirectory();
      settled := true;
    }

    method UnlinkMarker()
      requires Valid() && present
      modifies this`directory, this`markers
      ensures directory == old(directory).(marker := None) && markers == old(markers) + {None}
    {
      directory, markers := directory.(marker := None), markers + {None};
    }

    method SyncParent()
      requires Valid()
      modifies this`presences
      ensures presences == {present}
    {
      presences := {present};
    }

    /** Moves the directory aside, durably. */
    method Isolate()
      requires Valid() && present
      modifies this`present, this`presences, this`isolated
      ensures Disciplined() && !present && isolated == old(isolated) + [directory]
    {
      isolated, present, presences := isolated + [directory], false, {false};
    }

    /** Nothing that is there, or that may be left, lacks its marker. */
    ghost predicate UnderConstruction()
      reads this
    {
      Valid() && present && None !in markers
    }

    /** The verification of a reader, or of a build that has come as far as writing its metadata. */
    method VerifyLocked(abi: nat, allowIncomplete: bool) returns (m: Option<Metadata>)
      ensures m.Some? <==>
              && present && (directory.marker.None? || (allowIncomplete && directory.marker == Some(AfterBaseJson)))
              && directory.metadata.Some? && Verifies(id, abi, directory.metadata.value, directory.content)
      ensures m.Some? ==> m == directory.metadata
    {
      m := None;
      if present && (directory.marker.None? || (allowIncomplete && directory.marker == Some(AfterBaseJson))) {
        if directory.metadata.Some? && Verifies(id, abi, directory.metadata.value, directory.content) {
          m := directory.metadata;
        }
      }
    }

    /**
     The verification of a reader. Under the discipline a first sight is enough: the reader gets the metadata
     exactly if the directory looks complete and was built for the interpreter that the reader runs.
     */
    method VerifyBase(abi: nat) returns (m: Option<Metadata>)
      requires Disciplined()
      ensures m.Some? <==> present && LooksComplete(directory) && directory.metadata.value.abi == abi
      ensures m.Some? ==> m == directory.metadata && Verifies(id, abi, m.value, directory.content)
                          && AsRecorded(id, m.value, directory.content)
    {
      m := VerifyLocked(abi, false);
    }

    /** The directory holds a complete and verified base for this build input. */
    ghost predicate Offers(lock: LockInfo, abi: nat, m: Metadata)
      reads this
    {
      && present && LooksComplete(directory) && directory.metadata == Some(m)
      && Verifies(id, abi, m, directory.content) && m.lock == lock
      && AsRecorded(id, m, directory.content) && m.abi == abi
    }

    /** What a run does about a directory that is there already; None means that the way is free. */
    method SettleExisting(lock: LockInfo, abi: nat) returns (r: Option<Outcome>)
      requires Valid()
      modifies this`present, this`presences, this`isolated
      ensures Valid() && (old(Disciplined()) ==> Disciplined())
      ensures r.None? ==> !present
      ensures !old(present) ==> r.None? && isolated == old(isolated)
      ensures old(present) ==>
                if r.None? then isolated == old(isolated) + [directory]
                else present && presences == old(presences) && isolated == old(isolated)
      ensures old(present) && old(Disciplined()) && LooksComplete(directory) ==> r.Some?
      ensures r.Some? ==> r.value == Failed || (r.value.Existing? && Offers(lock, abi, r.value.metadata))
    {
      r := None;
      if present {
        if !LooksComplete(directory) {
          Isolate();
        } else {
          var m := directory.metadata.value;
          if Verifies(id, m.abi, m, directory.content) {
            r := Some(if m.lock == lock && m.abi == abi then Existing(m) else Failed);
          } else {
            Isolate();
          }
        }
      }
    }

    /** Claims the directory: from the end of it on, the marker is there whatever happens. */
    method Claim() returns (alive: bool)
      requires Valid() && !present
      modifies this`power, this`present, this`directory, this`presences, this`markers, this`metadatas, this`settled
      ensures Disciplined()
      ensures alive ==> UnderConstruction()
      ensures old(power) >= 3 ==> alive && power == old(power) - 3
    {
      alive := Step();
      if !alive { return; }
      present, directory := true, Directory(None, None, EMPTY);
      presences, markers, metadatas, settled := {false, true}, {None}, {None}, false;
      alive := Step();
      if !alive { return; }
      WriteMarker(AfterMarker);
      alive := Step();
      if !alive { return; }
      SyncDirectory();
    }

    /** Copies the lock and creates the environment. */
    method LayOut(lock: LockInfo, supply: Supply) returns (r: Option<Outcome>)
      requires UnderConstruction()
      modifies this`power, this`directory, this`markers, this`settled
      ensures UnderConstruction()
      ensures r.None? ==> directory.content == supply.venv.(lock := Some(lock)) && supply.venv.trusted
      ensures r.Some? ==> r.value == Cut || (r.value == Failed && !supply.venv.trusted)
      ensures old(power) >= 3 ==> r != Some(Cut) && power == old(power) - 3
    {
      var alive := Step();
      if !alive { return Some(Cut); }
      WriteContent(directory.content.(lock := Some(lock)));
      alive := Step();
      if !alive { return Some(Cut); }
      WriteContent(supply.venv.(lock := Some(lock)));
      alive := Step();
      if !alive { return Some(Cut); }
      WriteMarker(AfterVenv);
      r := if supply.venv.trusted then None else Some(Failed);
    }

    /** Installs the packages, seals the access rights, and probes the result for changes of its inventory. */
    method InstallPackages(lock: LockInfo, supply: Supply) returns (r: Option<Outcome>)
      requires UnderConstruction()
      modifies this`power, this`directory, this`markers, this`settled
      ensures UnderConstruction()
      ensures r.None? ==> directory.content == supply.probed.(lock := Some(lock)) && supply.installed.trusted
      ensures r.None? ==> supply.probed.inventory.Some? && supply.probed.inventory == supply.installed.inventory
      ensures r.Some? ==> r.value == Cut || r.value == Failed
      ensures old(power) >= 4 ==> r != Some(Cut) && power == old(power) - 4
      ensures r == Some(Failed) ==> !(supply.installed.trusted && supply.installed.inventory.Some?
                                      && supply.probed.inventory == supply.installed.inventory)
    {
      var alive := Step();
      if !alive { return Some(Cut); }
      WriteContent(supply.installed.(lock := Some(lock)));
      alive := Step();
      if !alive { return Some(Cut); }
      WriteMarker(AfterInstall);
      alive := Step();
      if !alive { return Some(Cut); }
      WriteContent(directory.content.(sealed := true));
      alive := Step();
      if !alive { return Some(Cut); }
      WriteContent(supply.probed.(lock := Some(lock)));
      var same := supply.installed.inventory.Some? && supply.probed.inventory == supply.installed.inventory;
      r := if supply.installed.trusted && same then None else Some(Failed);
    }

    /** Writes the metadata, verifies everything once more, makes the whole tree durable, and removes the marker. */
    method Finish(lock: LockInfo, abi: nat, freeze: nat) returns (r: Outcome)
      requires UnderConstruction() && directory.content.inventory.Some? && id == BaseId(lock.requirements, abi)
      modifies this`power, this`directory, this`markers, this`metadatas, this`presences, this`settled
      ensures Disciplined()
      ensures r.Built? ==> Offers(lock, abi, r.metadata) && Durable()
      ensures r.Built? || r == Failed || r == Cut
      ensures r.Built? ==> old(directory.content.trusted)
      ensures old(power) >= 7 && old(directory.content.trusted) && old(directory.content.lock) == Some(lock) ==>
                r.Built?
    {
      var content := directory.content;
      var m := Metadata(id, lock, abi, freeze, content.inventory.value);
      var alive := Step();
      if !alive { return Cut; }
      WriteMetadata(m);
      alive := Step();
      if !alive { return Cut; }
      WriteMarker(AfterBaseJson);
      alive := Step();
      if !alive { return Cut; }
      WriteContent(content.(sealed := true));
      var persisted := VerifyLocked(abi, true);
      if persisted != Some(m) { return Failed; }
      alive := Step();
      if !alive { return Cut; }
      SealDurableTree();
      alive := Step();
      if !alive { return Cut; }
      UnlinkMarker();
      alive := Step();
      if !alive { return Cut; }
      SyncDirectory();
      alive := Step();
      if !alive { return Cut; }
      SyncParent();
      r := Built(m);
    }

    /** A supply that passes every check on the way. */
    predicate Sound(supply: Supply) {
      && supply.venv.trusted && supply.installed.trusted && supply.probed.trusted
      && supply.installed.inventory.Some? && supply.probed.inventory == supply.installed.inventory
    }

    /**
     One run. Whether it completes, fails or is cut off, it keeps the marker discipline; what it found is still
     in place untouched or is moved aside whole; and a base that it reports is complete, verified and, if it
     was built by this run, durable.
     */
    method Build(lock: LockInfo, abi: nat, supply: Supply) returns (r: Outcome)
      requires Valid() && id == BaseId(lock.requirements, abi)
      modifies this
      ensures Valid() && (old(Disciplined()) ==> Disciplined())
      ensures r.Built? ==> Offers(lock, abi, r.metadata) && Durable() && Sound(supply)
      ensures r.Built? ==> supply.venv.trusted && supply.installed.trusted && supply.probed.trusted
      ensures r.Existing? ==> Offers(lock, abi, r.metadata) && directory == old(directory) && old(present)
      ensures isolated == old(isolated) || (old(present) && isolated == old(isolated) + [old(directory)])
      ensures old(present) && isolated == old(isolated) ==> present && directory == old(directory)
      ensures old(present) && old(Disciplined()) && LooksComplete(old(directory)) ==> isolated == old(isolated)
      ensures !old(present) && old(power) >= 17 && Sound(supply) ==> r.Built?
    {
      var settledBefore := SettleExisting(lock, abi);
      if settledBefore.Some? {
        return settledBefore.value;
      }
      var alive := Claim();
      if !alive {
        return Cut;
      }
      var laidOut := LayOut(lock, supply);
      if laidOut.Some? {
        return laidOut.value;
      }
      var installed := InstallPackages(lock, supply);
      if installed.Some? {
        return installed.value;
      }
      r := Finish(lock, abi, supply.freeze);
    }

    /**
     Any number of runs, each of them cut off anywhere and possibly followed by a loss of power: in the end a
     reader needs no more than the marker, the metadata and the interpreter to know that a base is verified.
     */
    method BuildAgainAndAgain(runs: seq<Run>, readerAbi: nat) returns (offered: Option<Metadata>)
      requires Disciplined()
      requires forall i | 0 <= i < |runs| :: id == BaseId(runs[i].lock.requirements, runs[i].abi)
      modifies this
      ensures Disciplined() && old(isolated) <= isolated
      ensures offered.Some? <==> present && LooksComplete(directory) && directory.metadata.value.abi == readerAbi
      ensures offered.Some? ==> offered == directory.metadata
                                && Verifies(id, readerAbi, offered.value, directory.content)
                                && AsRecorded(id, offered.value, directory.content)
    {
      var i := 0;
      while i < |runs|
        invariant 0 <= i <= |runs|
        invariant Disciplined() && old(isolated) <= isolated
      {
        power := runs[i].power;
        var r := Build(runs[i].lock, runs[i].abi, runs[i].supply);
        if runs[i].lost {
          LosePower(runs[i].leftPresent, runs[i].left);
        }
        i := i + 1;
      }
      offered := VerifyLocked(readerAbi, false);
    }
  }
}
