/**
 `write_with_hook`, as the sequence of calls the code makes (src/config/transaction.rs).

 Before every call any number of edits happen, and every call may fail; both come from an
 arbitrary `World`. The method is shown to be a run of the protocol of `Transaction.dfy`,
 so everything proved there of all runs holds of it.
 */
module CommitFile {
  import opened Wrappers
  import opened Transaction

  /** What the code does not choose: the edits before each call, which calls fail, and how
      much of a failing write reaches the file. */
  datatype World = World(edits: nat -> seq<Action>, fails: nat -> bool, partial: nat -> nat)

  ghost predicate Undisturbed(world: World) {
    forall t: nat :: world.edits(t) == [] && !world.fails(t)
  }

  /** The directory is as the job expects: the INI has the expected bytes, or is not there. */
  predicate Applies(job: Job, d: Disk) {
    match job.expected
    case Some(bytes) => Path in d.names && Has(d, d.names[Path], bytes) && |bytes| <= MAX_INI_BYTES
    case None => Path !in d.names
  }

  /** A call that only lets the commit go on or turns it away. */
  predicate IsGate(job: Job, replacing: bool, pc: Pc, next: Pc, otherwise: Pc) {
    match pc
    case Prepared => next == (if job.expected.Some? then Opening else Filling) && otherwise == Closing(Err(Interrupted))
    case Syncing => next == (if job.expected.Some? then Checked else Rechecking) && otherwise == Closing(Err(CannotWrite))
    case Checked => next == SettingAside && otherwise == Closing(Err(Interrupted))
    case OriginalMoved => next == Publishing && otherwise == PuttingBack
    case Published => next == (if replacing then Discarding else Closing(Ok(()))) && otherwise == Closing(Err(CleanupFailed))
    case _ => false
  }

  lemma GateIsStep(job: Job, s: State, next: Pc, otherwise: Pc, fails: bool)
    requires IsGate(job, s.original.Some?, s.pc, next, otherwise)
    ensures Step(job, s, Own(fails, 0), s.(pc := if fails then otherwise else next))
  {
  }

  /** Where moving the original or the temporary file leads. */
  predicate MovesOriginal(pc: Pc, to: Name, next: Pc, otherwise: Pc) {
    match pc
    case SettingAside => to == Recovery && next == OriginalMoved && otherwise == Closing(Err(CannotSetAside))
    case PuttingBack => to == Path && next == Closing(Err(RolledBack)) && otherwise == Closing(Err(RecoveryKept))
    case _ => false
  }

  lemma MovingOriginalIsStep(job: Job, s: State, to: Name, next: Pc, otherwise: Pc, fails: bool)
    requires MovesOriginal(s.pc, to, next, otherwise) && s.original.Some?
    ensures Step(job, s, Own(fails, 0),
                 if CanRename(s, fails, s.original, to)
                 then s.(pc := next, disk := Renamed(s.disk, s.original.value.name, to),
                         original := Some(Handle(s.original.value.file, to)))
                 else s.(pc := otherwise))
  {
  }

  predicate MovesTemp(pc: Pc, otherwise: Pc) {
    (pc.Publishing? && otherwise == PuttingBack) || (pc.PublishingNew? && otherwise == Closing(Err(Conflict)))
  }

  lemma MovingTempIsStep(job: Job, s: State, otherwise: Pc, fails: bool)
    requires MovesTemp(s.pc, otherwise) && s.temp.Some?
    ensures Step(job, s, Own(fails, 0),
                 if CanRename(s, fails, s.temp, Path)
                 then s.(pc := Published, published := true, disk := Renamed(s.disk, s.temp.value.name, Path),
                         temp := Some(Handle(s.temp.value.file, Path)))
                 else s.(pc := otherwise))
  {
  }

  class Commit {
    const job: Job
    const world: World
    var clock: nat
    var disk: Disk
    var sequence: nat
    var temp: Option<Handle>
    var original: Option<Handle>
    var published: bool
    var held: set<FileId>  // the files this process has open
    ghost var run: seq<State>
    ghost var moves: seq<Move>

    constructor (job: Job, world: World, disk: Disk, sequence: nat)
      requires WellFormed(disk)
      ensures this.job == job && this.world == world && this.disk == disk && this.sequence == sequence
      ensures Reached(Checking) && moves == [] && temp.None? && original.None? && !published
    {
      this.job, this.world, this.clock, this.disk, this.sequence := job, world, 0, disk, sequence;
      temp, original, published, held := None, None, false, {};
      run, moves := [Begin(disk, sequence)], [];
    }

    ghost function Now(pc: Pc): State
      reads this
    {
      State(disk, sequence, pc, temp, original, published)
    }

    /** The calls so far are a run of the protocol that has got to `pc`. */
    ghost predicate Reached(pc: Pc)
      reads this
    {
      IsRun(job, run, moves) && run[|moves|] == Now(pc) && held == Held(Now(pc))
    }

    ghost method Record(fails: bool, partial: nat, pc: Pc)
      requires IsRun(job, run, moves) && Step(job, run[|moves|], Own(fails, partial), Now(pc))
      requires held == Held(Now(pc))
      modifies this`run, this`moves
      ensures Reached(pc)
      ensures old(run) <= run && old(moves) <= moves
    {
      run, moves := run + [Now(pc)], moves + [Own(fails, partial)];
    }

    /** Edits happen; the next call learns whether it is to fail. */
    method Yield(ghost pc: Pc) returns (fails: bool)
      requires Reached(pc)
      modifies this`clock, this`disk, this`run, this`moves
      ensures Reached(pc)
      ensures old(run) <= run && old(moves) <= moves
      ensures Undisturbed(world) ==> !fails && disk == old(disk)
    {
      fails := world.fails(clock);
      var edits := world.edits(clock);
      var i := 0;
      while i < |edits|
        invariant i <= |edits| && Reached(pc)
        invariant old(run) <= run && old(moves) <= moves
        invariant edits == [] ==> disk == old(disk)
      {
        disk := Edited(disk, held, edits[i]);
        run, moves := run + [Now(pc)], moves + [Editor(edits[i])];
        i := i + 1;
      }
      clock := clock + 1;
    }

    /** One call that may turn the commit away. */
    method Pass(pc: Pc, next: Pc, otherwise: Pc) returns (ok: bool)
      requires Reached(pc) && IsGate(job, original.Some?, pc, next, otherwise)
      modifies this`clock, this`disk, this`run, this`moves
      ensures old(run) <= run && old(moves) <= moves
      ensures Reached(if ok then next else otherwise)
      ensures Undisturbed(world) ==> ok && disk == old(disk)
    {
      var fails := Yield(pc);
      GateIsStep(job, Now(pc), next, otherwise, fails);
      Record(fails, 0, if fails then otherwise else next);
      ok := !fails;
    }

    /** `rename_no_replace` of the original. */
    method MoveOriginal(pc: Pc, to: Name, next: Pc, otherwise: Pc) returns (ok: bool)
      requires Reached(pc) && MovesOriginal(pc, to, next, otherwise) && original.Some?
      modifies this`clock, this`disk, this`original, this`run, this`moves
      ensures old(run) <= run && old(moves) <= moves
      ensures Reached(if ok then next else otherwise)
      ensures original.Some? && original.value.file == old(original.value.file)
      ensures Undisturbed(world) && old(original.value.name in disk.names) && to !in old(disk).names ==>
        ok && disk == Renamed(old(disk), old(original.value.name), to) && original.value.name == to
    {
      var fails := Yield(pc);
      MovingOriginalIsStep(job, Now(pc), to, next, otherwise, fails);
      ok := !fails && original.value.name in disk.names && to !in disk.names;
      if ok {
        disk := Renamed(disk, original.value.name, to);
        original := Some(Handle(original.value.file, to));
      }
      Record(fails, 0, if ok then next else otherwise);
    }

    /** `rename_no_replace` of the temporary file to the INI's name. */
    method MoveTemp(pc: Pc, otherwise: Pc) returns (ok: bool)
      requires Reached(pc) && MovesTemp(pc, otherwise) && temp.Some? && !published
      modifies this`clock, this`disk, this`temp, this`published, this`run, this`moves
      ensures old(run) <= run && old(moves) <= moves
      ensures Reached(if ok then Published else otherwise)
      ensures temp.Some? && temp.value.file == old(temp.value.file) && published == ok
      ensures Undisturbed(world) && old(temp.value.name in disk.names) && Path !in old(disk).names ==>
        ok && disk == Renamed(old(disk), old(temp.value.name), Path)
    {
      var fails := Yield(pc);
      MovingTempIsStep(job, Now(pc), otherwise, fails);
      ok := !fails && temp.value.name in disk.names && Path !in disk.names;
      if ok {
        disk := Renamed(disk, temp.value.name, Path);
        temp, published := Some(Handle(temp.value.file, Path)), true;
      }
      Record(fails, 0, if ok then Published else otherwise);
    }

    /** Tries the next temporary name. */
    method TryName(tries: nat) returns (made: bool, failed: bool)
      requires Reached(Reserving(tries)) && tries > 0 && temp.None? && original.None? && !published
      modifies this`clock, this`disk, this`sequence, this`temp, this`held, this`run, this`moves
      ensures old(run) <= run && old(moves) <= moves
      ensures Reached(if made then Prepared else if failed then Done(Err(NoTemporary)) else Reserving(tries - 1))
      ensures temp.Some? == made
      ensures Undisturbed(world) && Temp(old(sequence)) !in old(disk).names ==>
        made && temp == Some(Handle(old(disk).next, Temp(old(sequence))))
        && disk == Created(old(disk), Temp(old(sequence)), [])
    {
      made := false;
      failed := Yield(Reserving(tries));
      if failed {
        Record(true, 0, Done(Err(NoTemporary)));
        return;
      }
      var candidate := Temp(sequence);
      sequence := sequence + 1;
      if candidate !in disk.names {
        made := true;
        temp := Some(Handle(disk.next, candidate));
        held := {disk.next};
        disk := Created(disk, candidate, []);
      }
      Record(false, 0, if made then Prepared else Reserving(tries - 1));
    }

    /** `TemporaryConfig::create`. */
    method Reserve() returns (r: Outcome)
      requires Reached(Reserving(NAME_TRIES)) && temp.None? && original.None? && !published
      modifies this`clock, this`disk, this`sequence, this`temp, this`held, this`run, this`moves
      ensures old(run) <= run && old(moves) <= moves
      ensures if r.Ok? then Reached(Prepared) && temp.Some? else Reached(Done(r))
      ensures Undisturbed(world) && Temp(old(sequence)) !in old(disk).names ==>
        r.Ok? && temp == Some(Handle(old(disk).next, Temp(old(sequence))))
        && disk == Created(old(disk), Temp(old(sequence)), [])
    {
      var tries: nat := NAME_TRIES;
      while tries > 0
        invariant Reached(Reserving(tries)) && temp.None?
        invariant old(run) <= run && old(moves) <= moves
        invariant tries < NAME_TRIES && Undisturbed(world) ==> Temp(old(sequence)) in old(disk).names
        invariant tries == NAME_TRIES ==> disk == old(disk) && sequence == old(sequence)
      {
        var made, failed := TryName(tries);
        if made {
          return Ok(());
        }
        if failed {
          return Err(NoTemporary);
        }
        tries := tries - 1;
      }
      Record(false, 0, Done(Err(NoTemporary)));
      return Err(NoTemporary);
    }

    /** Locks the INI, then compares it. */
    method OpenOriginal() returns (ok: bool)
      requires Reached(Opening) && job.expected.Some? && temp.Some? && original.None? && !published
      modifies this`clock, this`disk, this`original, this`held, this`run, this`moves
      ensures old(run) <= run && old(moves) <= moves
      ensures if ok then Reached(Comparing) && original.Some? else Reached(Closing(Err(CannotOpen)))
      ensures Undisturbed(world) && old(Path in disk.names && disk.names[Path] != temp.value.file) ==>
        ok && disk == old(disk) && original == Some(Handle(disk.names[Path], Path))
    {
      var fails := Yield(Opening);
      if fails || !Free(disk, held, Path) {
        Record(fails, 0, Closing(Err(CannotOpen)));
        return false;
      }
      original := Some(Handle(disk.names[Path], Path));
      held := held + {disk.names[Path]};
      Record(false, 0, Comparing);
      ok := true;
    }

    method CompareOriginal() returns (r: Result<(), Error>)
      requires Reached(Comparing) && job.expected.Some? && temp.Some? && original.Some? && !published
      modifies this`clock, this`disk, this`run, this`moves
      ensures old(run) <= run && old(moves) <= moves
      ensures if r.Ok? then Reached(Filling) else Reached(Closing(r))
      ensures Undisturbed(world) && old(Has(disk, original.value.file, job.expected.value))
              && |job.expected.value| <= MAX_INI_BYTES ==>
        r.Ok? && disk == old(disk)
    {
      var fails := Yield(Comparing);
      if fails {
        Record(true, 0, Closing(Err(CannotOpen)));
        return Err(CannotOpen);
      }
      if !(Has(disk, original.value.file, job.expected.value) && |job.expected.value| <= MAX_INI_BYTES) {
        Record(false, 0, Closing(Err(Changed)));
        return Err(Changed);
      }
      Record(false, 0, Filling);
      r := Ok(());
    }

    /** Writes the new bytes to the temporary file. */
    method Fill() returns (ok: bool)
      requires Reached(Filling) && temp.Some?
      modifies this`clock, this`disk, this`run, this`moves
      ensures old(run) <= run && old(moves) <= moves
      ensures Reached(if ok then Syncing else Closing(Err(CannotWrite)))
      ensures Undisturbed(world) ==> ok && disk == Written(old(disk), temp.value.file, job.bytes)
    {
      var fails := Yield(Filling);
      var partial := world.partial(clock);
      if fails {
        disk := Written(disk, temp.value.file, job.bytes[..partial % (|job.bytes| + 1)]);
        Record(true, partial, Closing(Err(CannotWrite)));
        return false;
      }
      disk := Written(disk, temp.value.file, job.bytes);
      Record(false, partial, Syncing);
      ok := true;
    }

    /** Checks and locks the original, and fills the temporary file. */
    method Prepare() returns (r: Result<(), Error>)
      requires Reached(Prepared) && temp.Some? && original.None? && !published
      modifies this`clock, this`disk, this`original, this`held, this`run, this`moves
      ensures old(run) <= run && old(moves) <= moves
      ensures if r.Err? then Reached(Closing(r)) else Reached(if job.expected.Some? then Checked else Rechecking)
      ensures r.Ok? ==> (original.Some? <==> job.expected.Some?)
      ensures Undisturbed(world) && Applies(job, old(disk)) && !old(At(disk, Path, temp.value.file)) ==>
        r.Ok? && disk == Written(old(disk), temp.value.file, job.bytes)
        && (job.expected.Some? ==> original == Some(Handle(disk.names[Path], Path)))
    {
      var ok := Pass(Prepared, if job.expected.Some? then Opening else Filling, Closing(Err(Interrupted)));
      if !ok {
        return Err(Interrupted);
      }
      if job.expected.Some? {
        ok := OpenOriginal();
        if !ok {
          return Err(CannotOpen);
        }
        r := CompareOriginal();
        if r.Err? {
          return;
        }
      }
      ok := Fill();
      if !ok {
        return Err(CannotWrite);
      }
      ok := Pass(Syncing, if job.expected.Some? then Checked else Rechecking, Closing(Err(CannotWrite)));
      r := if ok then Ok(()) else Err(CannotWrite);
    }

    method PutBack() returns (r: Outcome)
      requires Reached(PuttingBack) && original.Some?
      modifies this`clock, this`disk, this`original, this`run, this`moves
      ensures old(run) <= run && old(moves) <= moves
      ensures Reached(Closing(r)) && r.Err? && original.Some?
    {
      var ok := MoveOriginal(PuttingBack, Path, Closing(Err(RolledBack)), Closing(Err(RecoveryKept)));
      r := Err(if ok then RolledBack else RecoveryKept);
    }

    /** Takes the original away, once the new file is published. */
    method Discard() returns (r: Outcome)
      requires Reached(Published) && original.Some?
      modifies this`clock, this`disk, this`run, this`moves
      ensures old(run) <= run && old(moves) <= moves
      ensures Reached(Closing(r))
      ensures Undisturbed(world) ==> r.Ok? && disk == Unlinked(old(disk), original.value.name)
    {
      var ok := Pass(Published, Discarding, Closing(Err(CleanupFailed)));
      if !ok {
        return Err(CleanupFailed);
      }
      var fails := Yield(Discarding);
      if fails {
        Record(true, 0, Closing(Err(CleanupFailed)));
        return Err(CleanupFailed);
      }
      disk := Unlinked(disk, original.value.name);
      Record(false, 0, Closing(Ok(())));
      r := Ok(());
    }

    /** Moves the original aside and publishes, or puts it back. */
    method Swap() returns (r: Outcome)
      requires Reached(Checked) && temp.Some? && original.Some? && !published
      modifies this`clock, this`disk, this`temp, this`original, this`published, this`run, this`moves
      ensures old(run) <= run && old(moves) <= moves
      ensures Reached(if r.Ok? then Published else Closing(r)) && temp.Some? && original.Some?
      ensures Undisturbed(world) && old(Swappable()) ==>
        r.Ok? && original.value.name == Recovery && At(disk, Path, old(temp.value.file))
        && disk.contents == old(disk.contents)
    {
      var ok := Pass(Checked, SettingAside, Closing(Err(Interrupted)));
      if !ok {
        return Err(Interrupted);
      }
      ok := MoveOriginal(SettingAside, Recovery, OriginalMoved, Closing(Err(CannotSetAside)));
      if !ok {
        return Err(CannotSetAside);
      }
      ok := Pass(OriginalMoved, Publishing, PuttingBack);
      if ok {
        ok := MoveTemp(Publishing, PuttingBack);
      }
      if ok {
        r := Ok(());
      } else {
        r := PutBack();
      }
    }

    method Replace() returns (r: Outcome)
      requires Reached(Checked) && temp.Some? && original.Some? && !published
      modifies this`clock, this`disk, this`temp, this`original, this`published, this`run, this`moves
      ensures old(run) <= run && old(moves) <= moves
      ensures Reached(Closing(r)) && temp.Some?
      ensures Undisturbed(world) && old(Swappable()) ==>
        r.Ok? && Recovery !in disk.names && At(disk, Path, old(temp.value.file)) && disk.contents == old(disk.contents)
    {
      r := Swap();
      if r.Ok? {
        r := Discard();
      }
    }

    ghost predicate Swappable()
      reads this
    {
      && temp.Some? && original.Some? && original.value.name == Path && temp.value.name.Temp?
      && Path in disk.names && At(disk, temp.value.name, temp.value.file) && Recovery !in disk.names
    }

    /** Publishes where there was no INI, if there is still no recovery file. */
    method CreateNew() returns (r: Outcome)
      requires Reached(Rechecking) && temp.Some? && original.None? && !published
      modifies this`clock, this`disk, this`temp, this`published, this`run, this`moves
      ensures old(run) <= run && old(moves) <= moves
      ensures Reached(Closing(r)) && temp.Some?
      ensures Undisturbed(world) && Recovery !in old(disk).names && Path !in old(disk).names
              && old(temp.value.name != Recovery && At(disk, temp.value.name, temp.value.file)) ==>
        r.Ok? && Recovery !in disk.names && At(disk, Path, old(temp.value.file)) && disk.contents == old(disk.contents)
    {
      r := Recheck();
      if r.Err? {
        return;
      }
      var ok := MoveTemp(PublishingNew, Closing(Err(Conflict)));
      if !ok {
        return Err(Conflict);
      }
      ok := Pass(Published, Closing(Ok(())), Closing(Err(CleanupFailed)));
      r := if ok then Ok(()) else Err(CleanupFailed);
    }

    method Recheck() returns (r: Outcome)
      requires Reached(Rechecking)
      modifies this`clock, this`disk, this`run, this`moves
      ensures old(run) <= run && old(moves) <= moves
      ensures Reached(if r.Ok? then PublishingNew else Closing(r))
      ensures Undisturbed(world) && Recovery !in old(disk).names ==> r.Ok? && disk == old(disk)
    {
      var fails := Yield(Rechecking);
      if fails {
        Record(true, 0, Closing(Err(Unverified)));
        return Err(Unverified);
      }
      if Recovery in disk.names {
        Record(false, 0, Closing(Err(RecoveryPresent)));
        return Err(RecoveryPresent);
      }
      Record(false, 0, PublishingNew);
      r := Ok(());
    }

    /** The handles close: the original first, then the temporary file, deleted if unpublished. */
    method Drop(r: Outcome)
      requires Reached(Closing(r)) && temp.Some? && (r.Ok? ==> published)
      modifies this`clock, this`disk, this`held, this`run, this`moves
      ensures old(run) <= run && old(moves) <= moves
      ensures Reached(Done(r))
      ensures Undisturbed(world) && published ==> disk == old(disk)
    {
      var _ := Yield(Closing(r));
      held := {temp.value.file};
      Record(false, 0, CleaningUp(r));
      var fails := Yield(CleaningUp(r));
      if !published && !fails {
        disk := Unlinked(disk, temp.value.name);
      }
      held := {};
      Record(fails, 0, Done(r));
    }

    method Save() returns (r: Outcome)
      requires Reached(Prepared) && temp.Some? && original.None? && !published
      modifies this`clock, this`disk, this`temp, this`original, this`published, this`held, this`run, this`moves
      ensures old(run) <= run && old(moves) <= moves
      ensures Reached(Closing(r)) && temp.Some?
      ensures Undisturbed(world) && Applies(job, old(disk)) && old(ReadyToSave()) ==>
        r.Ok? && Recovery !in disk.names && At(disk, Path, old(temp.value.file))
        && Has(disk, old(temp.value.file), job.bytes)
    {
      ghost var well := Undisturbed(world) && Applies(job, disk) && ReadyToSave();
      r := Prepare();
      if r.Ok? {
        if job.expected.Some? {
          assert well ==> Swappable();
          r := Replace();
        } else {
          assert well ==> Path !in disk.names;
          assert well ==> Recovery !in disk.names;
          assert well ==> At(disk, temp.value.name, temp.value.file);
          r := CreateNew();
        }
      }
    }

    ghost predicate ReadyToSave()
      reads this
    {
      && temp.Some? && temp.value.name.Temp? && At(disk, temp.value.name, temp.value.file)
      && !At(disk, Path, temp.value.file) && Recovery !in disk.names
    }

    /** `require_no_recovery`, after `check_size`. */
    method Check() returns (r: Outcome)
      requires Reached(Checking) && temp.None? && original.None?
      modifies this`clock, this`disk, this`run, this`moves
      ensures old(run) <= run && old(moves) <= moves
      ensures Reached(if r.Ok? then Reserving(NAME_TRIES) else Done(r))
      ensures Undisturbed(world) && |job.bytes| <= MAX_INI_BYTES && Recovery !in old(disk).names ==>
        r.Ok? && disk == old(disk)
    {
      var fails := Yield(Checking);
      r := if |job.bytes| > MAX_INI_BYTES then Err(TooLarge)
           else if fails then Err(Unverified)
           else if Recovery in disk.names then Err(RecoveryPresent)
           else Ok(());
      Record(fails, 0, if r.Ok? then Reserving(NAME_TRIES) else Done(r));
    }

    /** The whole of `write_with_hook`. */
    method WriteWithHook() returns (r: Outcome)
      requires Reached(Checking) && moves == [] && temp.None? && original.None? && !published
      modifies this
      ensures Reached(Done(r)) && old(run) <= run
      ensures Undisturbed(world) && WellFormed(old(disk)) && Applies(job, old(disk)) && |job.bytes| <= MAX_INI_BYTES
              && Recovery !in old(disk).names && Temp(old(sequence)) !in old(disk).names ==>
        r.Ok? && Path in disk.names && Has(disk, disk.names[Path], job.bytes) && Recovery !in disk.names
    {
      r := Check();
      if r.Err? {
        return;
      }
      r := Reserve();
      if r.Err? {
        return;
      }
      r := Save();
      EveryRunKeepsInv(job, run, moves, |moves|);
      Drop(r);
    }
  }
}
