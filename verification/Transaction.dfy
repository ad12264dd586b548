/**
 The commit of a new INI (src/config/transaction.rs, src/config/storage.rs).

 The INI's directory is shared with editors that may act between any two operations
 of the commit, and the process may die between any two. A file opened with only
 read sharing cannot be written, renamed, replaced or deleted by anyone else; a new
 link to it can still be made. The protocol is a state machine over its operations;
 `CommitFile.dfy` shows that the code's own sequence of calls is a run of it.
 */
module Transaction {
  import opened Wrappers

  type Bytes = seq<bv8>
  type FileId = nat

  const MAX_INI_BYTES: nat := 1024 * 1024
  const NAME_TRIES: nat := 16

  // ---- The directory -----------------------------------------------------

  /** Names in the directory: the INI, its recovery file, this process's temporary names, the rest. */
  datatype Name = Path | Recovery | Temp(sequence: nat) | Other(n: nat)

  /** What survives a crash. A file may have several names, or none. */
  datatype Disk = Disk(names: map<Name, FileId>, contents: map<FileId, Bytes>, next: FileId)

  ghost predicate WellFormed(d: Disk) {
    && (forall n <- d.names :: d.names[n] in d.contents)
    && (forall f <- d.contents :: f < d.next)
  }

  predicate At(d: Disk, n: Name, f: FileId) {
    n in d.names && d.names[n] == f
  }

  predicate Has(d: Disk, f: FileId, bytes: Bytes) {
    f in d.contents && d.contents[f] == bytes
  }

  function Created(d: Disk, n: Name, bytes: Bytes): Disk {
    Disk(d.names[n := d.next], d.contents[d.next := bytes], d.next + 1)
  }

  function Written(d: Disk, f: FileId, bytes: Bytes): Disk {
    d.(contents := d.contents[f := bytes])
  }

  function Unlinked(d: Disk, n: Name): Disk {
    d.(names := d.names - {n})
  }

  function Renamed(d: Disk, from: Name, to: Name): Disk
    requires from in d.names
  {
    d.(names := (d.names - {from})[to := d.names[from]])
  }

  /** What an editor tries to do. */
  datatype Action =
    | Create(name: Name, bytes: Bytes)
    | Write(name: Name, bytes: Bytes)
    | Rename(from: Name, to: Name)
    | Link(from: Name, to: Name)
    | Delete(name: Name)

  predicate Free(d: Disk, held: set<FileId>, n: Name) {
    n in d.names && d.names[n] !in held
  }

  /** What the directory makes of it: nothing, if it needs a file that is held. */
  function Edited(d: Disk, held: set<FileId>, a: Action): Disk {
    match a
    case Create(n, bytes) => if n in d.names then d else Created(d, n, bytes)
    case Write(n, bytes) => if Free(d, held, n) then Written(d, d.names[n], bytes) else d
    case Rename(from, to) =>
      if Free(d, held, from) && (to in d.names ==> Free(d, held, to)) then Renamed(d, from, to) else d
    case Link(from, to) => if from in d.names && to !in d.names then d.(names := d.names[to := d.names[from]]) else d
    case Delete(n) => if Free(d, held, n) then Unlinked(d, n) else d
  }

  /** The file keeps its contents and all its names. */
  ghost predicate Kept(d: Disk, d': Disk, f: FileId) {
    && (f in d.contents ==> Has(d', f, d.contents[f]))
    && (forall n :: At(d, n, f) ==> At(d', n, f))
  }

  lemma EditingKeepsHeld(d: Disk, held: set<FileId>, a: Action)
    requires WellFormed(d)
    ensures WellFormed(Edited(d, held, a))
    ensures forall f <- held :: Kept(d, Edited(d, held, a), f)
  {
  }

  // ---- The commit --------------------------------------------------------

  /** What to write, and what the INI must still hold; `None` when there must be no INI. */
  datatype Job = Job(expected: Option<Bytes>, bytes: Bytes)

  datatype Error =
    | TooLarge | Unverified | RecoveryPresent | NoTemporary | Interrupted | CannotOpen | Changed | CannotWrite
    | CannotSetAside | RolledBack | RecoveryKept | Conflict | CleanupFailed

  type Outcome = Result<(), Error>

  /** The next operation of the commit. */
  datatype Pc =
    | Checking | Reserving(tries: nat) | Prepared | Opening | Comparing | Filling | Syncing
    | Checked | SettingAside | OriginalMoved | Publishing | PuttingBack
    | Rechecking | PublishingNew
    | Published | Discarding
    | Closing(outcome: Outcome) | CleaningUp(outcome: Outcome) | Done(outcome: Outcome) | Dead

  /** `temp` and `original` are the files opened, and under which name. */
  datatype Handle = Handle(file: FileId, name: Name)

  datatype State = State(
    disk: Disk, sequence: nat, pc: Pc,
    temp: Option<Handle>, original: Option<Handle>, published: bool)

  function Begin(disk: Disk, sequence: nat): State {
    State(disk, sequence, Checking, None, None, false)
  }

  predicate Over(s: State) {
    s.pc.Done? || s.pc.Dead?
  }

  /** The files others cannot touch: the temporary file until the end, the original until it is closed. */
  function Held(s: State): set<FileId> {
    (if s.temp.Some? && !Over(s) then {s.temp.value.file} else {})
    + (if s.original.Some? && !Over(s) && !s.pc.CleaningUp? then {s.original.value.file} else {})
  }

  /** An operation of the commit succeeds or fails; `partial` bytes reach the file when writing it fails. */
  datatype Move = Editor(a: Action) | Own(fails: bool, partial: nat) | Crash

  function Close(s: State, e: Error): State {
    s.(pc := Closing(Err(e)))
  }

  /** `rename_no_replace` by handle. */
  predicate CanRename(s: State, fails: bool, h: Option<Handle>, to: Name) {
    !fails && h.Some? && h.value.name in s.disk.names && to !in s.disk.names
  }

  /** Up to the point where the new contents are on disk under the temporary name. */
  predicate Prepares(job: Job, s: State, fails: bool, partial: nat, s': State) {
    match s.pc
    case Checking =>
      if |job.bytes| > MAX_INI_BYTES then s' == s.(pc := Done(Err(TooLarge)))
      else if fails then s' == s.(pc := Done(Err(Unverified)))
      else if Recovery in s.disk.names then s' == s.(pc := Done(Err(RecoveryPresent)))
      else s' == s.(pc := Reserving(NAME_TRIES))
    case Reserving(tries) =>
      if tries == 0 || fails then s' == s.(pc := Done(Err(NoTemporary)))
      else if Temp(s.sequence) in s.disk.names then s' == s.(pc := Reserving(tries - 1), sequence := s.sequence + 1)
      else s' == s.(pc := Prepared, sequence := s.sequence + 1, disk := Created(s.disk, Temp(s.sequence), []),
                    temp := Some(Handle(s.disk.next, Temp(s.sequence))))
    case Prepared =>
      if fails then s' == Close(s, Interrupted)
      else s' == s.(pc := if job.expected.Some? then Opening else Filling)
    case Opening =>
      if fails || !Free(s.disk, Held(s), Path) then s' == Close(s, CannotOpen)
      else s' == s.(pc := Comparing, original := Some(Handle(s.disk.names[Path], Path)))
    case Comparing =>
      if fails then s' == Close(s, CannotOpen)
      else if s.original.Some? && job.expected.Some? && Has(s.disk, s.original.value.file, job.expected.value)
              && |job.expected.value| <= MAX_INI_BYTES
      then s' == s.(pc := Filling)
      else s' == Close(s, Changed)
    case Filling =>
      s.temp.Some?
      && if fails then s' == Close(s.(disk := Written(s.disk, s.temp.value.file, job.bytes[..partial % (|job.bytes| + 1)])),
                                   CannotWrite)
         else s' == s.(pc := Syncing, disk := Written(s.disk, s.temp.value.file, job.bytes))
    case Syncing =>
      if fails then s' == Close(s, CannotWrite)
      else s' == s.(pc := if job.expected.Some? then Checked else Rechecking)
    case _ => false
  }

  /** The temporary file takes the INI's name, if nothing has it. */
  predicate Publishes(s: State, fails: bool, s': State, otherwise: State) {
    if CanRename(s, fails, s.temp, Path)
    then s' == s.(pc := Published, published := true, disk := Renamed(s.disk, s.temp.value.name, Path),
                  temp := Some(Handle(s.temp.value.file, Path)))
    else s' == otherwise
  }

  predicate Commits(s: State, fails: bool, s': State) {
    match s.pc
    case Checked => s' == if fails then Close(s, Interrupted) else s.(pc := SettingAside)
    case SettingAside =>
      if CanRename(s, fails, s.original, Recovery)
      then s' == s.(pc := OriginalMoved, disk := Renamed(s.disk, s.original.value.name, Recovery),
                    original := Some(Handle(s.original.value.file, Recovery)))
      else s' == Close(s, CannotSetAside)
    case OriginalMoved => s' == s.(pc := if fails then PuttingBack else Publishing)
    case Publishing => Publishes(s, fails, s', s.(pc := PuttingBack))
    case PuttingBack =>
      if CanRename(s, fails, s.original, Path)
      then s' == Close(s.(disk := Renamed(s.disk, s.original.value.name, Path),
                          original := Some(Handle(s.original.value.file, Path))), RolledBack)
      else s' == Close(s, RecoveryKept)
    case Rechecking =>
      if fails then s' == Close(s, Unverified)
      else if Recovery in s.disk.names then s' == Close(s, RecoveryPresent)
      else s' == s.(pc := PublishingNew)
    case PublishingNew => Publishes(s, fails, s', Close(s, Conflict))
    case _ => false
  }

  predicate Finishes(s: State, fails: bool, s': State) {
    match s.pc
    case Published =>
      s' == if fails then Close(s, CleanupFailed)
            else s.(pc := if s.original.Some? then Discarding else Closing(Ok(())))
    case Discarding =>
      s.original.Some?
      && s' == if fails then Close(s, CleanupFailed)
               else s.(pc := Closing(Ok(())), disk := Unlinked(s.disk, s.original.value.name))
    case Closing(outcome) => s' == s.(pc := CleaningUp(outcome))
    case CleaningUp(outcome) =>
      s.temp.Some?
      && s' == s.(pc := Done(outcome),
                  disk := if s.published || fails then s.disk else Unlinked(s.disk, s.temp.value.name))
    case _ => false
  }

  predicate Step(job: Job, s: State, move: Move, s': State) {
    match move
    case Editor(a) => s' == s.(disk := Edited(s.disk, Held(s), a))
    case Crash => s' == s.(pc := Dead)
    case Own(fails, partial) =>
      Prepares(job, s, fails, partial, s') || Commits(s, fails, s') || Finishes(s, fails, s')
  }

  /** A run of one commit, from a directory in any state. */
  ghost predicate IsRun(job: Job, run: seq<State>, moves: seq<Move>) {
    && |run| == |moves| + 1 && WellFormed(run[0].disk) && run[0] == Begin(run[0].disk, run[0].sequence)
    && forall i :: 0 <= i < |moves| ==> Step(job, run[i], moves[i], run[i + 1])
  }

  // ---- The invariant -----------------------------------------------------

  predicate OriginalAt(job: Job, s: State, n: Name) {
    && s.original.Some? && job.expected.Some? && s.original.value.name == n
    && At(s.disk, n, s.original.value.file) && Has(s.disk, s.original.value.file, job.expected.value)
  }

  predicate TempAt(s: State, n: Name) {
    s.temp.Some? && s.temp.value.name == n && At(s.disk, n, s.temp.value.file)
  }

  predicate NewBytesAt(job: Job, s: State, n: Name) {
    TempAt(s, n) && Has(s.disk, s.temp.value.file, job.bytes)
  }

  /** The temporary file is this process's own, and still under its temporary name. */
  predicate OwnTemp(s: State) {
    && s.temp.Some? && s.temp.value.name.Temp? && TempAt(s, s.temp.value.name) && s.temp.value.file in s.disk.contents
    && (s.original.Some? ==> s.original.value.file != s.temp.value.file)
  }

  /** What is on the disk when the commit ends in `outcome`, before its handles are closed. */
  predicate Ended(job: Job, s: State, outcome: Outcome) {
    match outcome
    case Ok(_) =>
      s.published && NewBytesAt(job, s, Path) && s.original.Some? == job.expected.Some?
      && (s.original.Some? ==> s.original.value.file in s.disk.contents)
    case Err(e) =>
      match e
      case CleanupFailed => s.published && NewBytesAt(job, s, Path) && OriginalIfAny(job, s, Recovery)
      case RecoveryKept => !s.published && OwnTemp(s) && OriginalAt(job, s, Recovery)
      case RolledBack => !s.published && OwnTemp(s) && OriginalAt(job, s, Path)
      case CannotSetAside => !s.published && OwnTemp(s) && OriginalAt(job, s, Path)
      case _ =>
        && !s.published && OwnTemp(s)
        && (s.original.Some? ==> s.original.value.name == Path && At(s.disk, Path, s.original.value.file))
  }

  predicate Facts(job: Job, s: State) {
    match s.pc
    case Checking => s.temp.None? && s.original.None? && !s.published
    case Reserving(_) => s.temp.None? && s.original.None? && !s.published && |job.bytes| <= MAX_INI_BYTES
    case Prepared => OwnTemp(s) && s.original.None? && !s.published
    case Opening => OwnTemp(s) && s.original.None? && !s.published && job.expected.Some?
    case Comparing =>
      OwnTemp(s) && !s.published && job.expected.Some? && s.original.Some?
      && s.original.value.name == Path && At(s.disk, Path, s.original.value.file)
    case Filling => OwnTemp(s) && !s.published && OriginalIfAny(job, s, Path)
    case Syncing => OwnTemp(s) && !s.published && NewBytesAt(job, s, s.temp.value.name) && OriginalIfAny(job, s, Path)
    case Checked => ReadyToPublish(job, s) && OriginalAt(job, s, Path)
    case SettingAside => ReadyToPublish(job, s) && OriginalAt(job, s, Path)
    case OriginalMoved => ReadyToPublish(job, s) && OriginalAt(job, s, Recovery)
    case Publishing => ReadyToPublish(job, s) && OriginalAt(job, s, Recovery)
    case PuttingBack => ReadyToPublish(job, s) && OriginalAt(job, s, Recovery)
    case Rechecking => ReadyToPublish(job, s) && job.expected.None? && s.original.None?
    case PublishingNew => ReadyToPublish(job, s) && job.expected.None? && s.original.None?
    case Published => s.published && NewBytesAt(job, s, Path) && OriginalIfAny(job, s, Recovery)
    case Discarding => s.published && NewBytesAt(job, s, Path) && OriginalAt(job, s, Recovery)
    case Closing(outcome) => Ended(job, s, outcome)
    case CleaningUp(outcome) => s.temp.Some? && (!s.published ==> OwnTemp(s))
                                && (outcome.Ok? ==> s.published) && (s.published ==> NewBytesAt(job, s, Path))
    case Done(_) => true
    case Dead => true
  }

  predicate OriginalIfAny(job: Job, s: State, n: Name) {
    if job.expected.Some? then OriginalAt(job, s, n) else s.original.None?
  }

  predicate ReadyToPublish(job: Job, s: State) {
    OwnTemp(s) && !s.published && NewBytesAt(job, s, s.temp.value.name)
  }

  ghost predicate Inv(job: Job, s: State) {
    WellFormed(s.disk) && Facts(job, s)
  }

  lemma PreparingKeepsInv(job: Job, s: State, fails: bool, partial: nat, s': State)
    requires Inv(job, s) && Prepares(job, s, fails, partial, s')
    ensures Inv(job, s')
  {
  }

  lemma CommittingKeepsInv(job: Job, s: State, fails: bool, s': State)
    requires Inv(job, s) && Commits(s, fails, s')
    ensures Inv(job, s')
  {
  }

  lemma FinishingKeepsInv(job: Job, s: State, fails: bool, s': State)
    requires Inv(job, s) && Finishes(s, fails, s')
    ensures Inv(job, s')
  {
  }

  /** The facts are about the files that are held, so they survive whatever keeps those. */
  lemma HeldKeepFacts(job: Job, s: State, d: Disk)
    requires Facts(job, s) && forall f <- Held(s) :: Kept(s.disk, d, f)
    ensures Facts(job, s.(disk := d))
  {
    if s.temp.Some? && !Over(s) {
      assert Kept(s.disk, d, s.temp.value.file);
    }
    if s.original.Some? && !Over(s) && !s.pc.CleaningUp? {
      assert Kept(s.disk, d, s.original.value.file);
    }
  }

  lemma EditingKeepsInv(job: Job, s: State, a: Action, s': State)
    requires Inv(job, s) && s' == s.(disk := Edited(s.disk, Held(s), a))
    ensures Inv(job, s')
  {
    EditingKeepsHeld(s.disk, Held(s), a);
    HeldKeepFacts(job, s, s'.disk);
  }

  lemma StepKeepsInv(job: Job, s: State, move: Move, s': State)
    requires Inv(job, s) && Step(job, s, move, s')
    ensures Inv(job, s')
  {
    match move
    case Editor(a) => EditingKeepsInv(job, s, a, s');
    case Crash =>
    case Own(fails, partial) =>
      if Prepares(job, s, fails, partial, s') {
        PreparingKeepsInv(job, s, fails, partial, s');
      } else if Commits(s, fails, s') {
        CommittingKeepsInv(job, s, fails, s');
      } else {
        FinishingKeepsInv(job, s, fails, s');
      }
  }

  lemma {:induction false} EveryRunKeepsInv(job: Job, run: seq<State>, moves: seq<Move>, n: nat)
    requires IsRun(job, run, moves) && n < |run|
    ensures Inv(job, run[n])
  {
    if n > 0 {
      EveryRunKeepsInv(job, run, moves, n - 1);
      StepKeepsInv(job, run[n - 1], moves[n - 1], run[n]);
    }
  }

  // ---- Nothing is lost ---------------------------------------------------

  predicate HoldsOriginal(s: State) {
    s.original.Some? && !Over(s) && !s.pc.CleaningUp?
  }

  /** The file the user had is whole, under the INI's name or the recovery name; or the new one is. */
  predicate Whole(job: Job, s: State) {
    if s.published then NewBytesAt(job, s, Path)
    else s.original.Some? && (At(s.disk, Path, s.original.value.file) || At(s.disk, Recovery, s.original.value.file))
  }

  lemma StepKeepsOriginal(job: Job, s: State, move: Move, s': State)
    requires Inv(job, s) && Step(job, s, move, s') && HoldsOriginal(s)
    ensures s'.original.Some? && s'.original.value.file == s.original.value.file
    ensures s.original.value.file in s.disk.contents
    ensures Has(s'.disk, s.original.value.file, s.disk.contents[s.original.value.file])
  {
    HeldExists(job, s);
    if move.Editor? {
      EditingKeepsHeld(s.disk, Held(s), move.a);
      assert Kept(s.disk, s'.disk, s.original.value.file);
    }
  }

  lemma HeldExists(job: Job, s: State)
    requires Inv(job, s) && HoldsOriginal(s)
    ensures s.original.value.file in s.disk.contents && Whole(job, s)
  {
  }

  lemma StaysHeld(job: Job, s: State, move: Move, s': State)
    requires Step(job, s, move, s') && HoldsOriginal(s')
    ensures HoldsOriginal(s) || (s.pc.Opening? && move.Own?)
  {
  }

  /** Once the commit has opened the INI, at every later point at which it may crash, whatever
      editors do, the original's bytes are unchanged and in place until the new ones are. */
  lemma {:induction false} OriginalIsNeverLost(
      job: Job, run: seq<State>, moves: seq<Move>, since: nat, n: nat)
    requires IsRun(job, run, moves) && since <= n < |run|
    requires HoldsOriginal(run[since]) && HoldsOriginal(run[n])
    ensures run[n].original.value.file == run[since].original.value.file
    ensures var o := run[n].original.value.file;
            o in run[since].disk.contents && Has(run[n].disk, o, run[since].disk.contents[o])
    ensures Whole(job, run[n])
  {
    EveryRunKeepsInv(job, run, moves, n);
    HeldExists(job, run[n]);
    if since < n {
      EveryRunKeepsInv(job, run, moves, n - 1);
      StaysHeld(job, run[n - 1], moves[n - 1], run[n]);
      if run[n - 1].pc.Opening? {
        OpenedOnce(job, run, moves, since, n - 1);
        assert false;
      }
      OriginalIsNeverLost(job, run, moves, since, n - 1);
      StepKeepsOriginal(job, run[n - 1], moves[n - 1], run[n]);
    }
  }

  lemma {:induction false} OpenedOnce(job: Job, run: seq<State>, moves: seq<Move>, since: nat, n: nat)
    requires IsRun(job, run, moves) && since <= n < |run| && HoldsOriginal(run[since])
    ensures run[n].original.Some? && !run[n].pc.Opening?
  {
    EveryRunKeepsInv(job, run, moves, n);
    if since < n {
      OpenedOnce(job, run, moves, since, n - 1);
      EveryRunKeepsInv(job, run, moves, n - 1);
      KeepsItsHandle(job, run[n - 1], moves[n - 1], run[n]);
    }
  }

  lemma KeepsItsHandle(job: Job, s: State, move: Move, s': State)
    requires Step(job, s, move, s') && s.original.Some? && !s.pc.Opening?
    ensures s'.original.Some?
  {
  }

  // ---- Nobody else's file is touched -------------------------------------

  predicate Mine(s: State, f: FileId) {
    || (s.temp.Some? && s.temp.value.file == f)
    || (s.original.Some? && s.original.value.file == f)
  }

  ghost predicate Untouched(d: Disk, d': Disk, f: FileId) {
    && (f in d.contents && Has(d', f, d.contents[f]))
    && (forall n :: At(d, n, f) <==> At(d', n, f))
  }

  /** No operation of the commit overwrites, renames or deletes a file that is neither its own
      temporary file nor the original it has checked and holds. */
  lemma NobodyElsesFileIsTouched(job: Job, run: seq<State>, moves: seq<Move>, n: nat, f: FileId)
    requires IsRun(job, run, moves) && n < |moves| && moves[n].Own?
    requires f in run[n].disk.contents && !Mine(run[n + 1], f)
    ensures Untouched(run[n].disk, run[n + 1].disk, f)
  {
    EveryRunKeepsInv(job, run, moves, n);
    OwnStepSparesOthers(job, run[n], moves[n], run[n + 1], f);
  }

  lemma OwnStepSparesOthers(job: Job, s: State, move: Move, s': State, f: FileId)
    requires Inv(job, s) && Step(job, s, move, s') && move.Own? && f in s.disk.contents && !Mine(s', f)
    ensures Untouched(s.disk, s'.disk, f)
  {
    if Prepares(job, s, move.fails, move.partial, s') {
      PreparingSparesOthers(job, s, move.fails, move.partial, s', f);
    } else if Commits(s, move.fails, s') {
      CommittingSparesOthers(job, s, move.fails, s', f);
    } else {
      FinishingSparesOthers(job, s, move.fails, s', f);
    }
  }

  lemma PreparingSparesOthers(job: Job, s: State, fails: bool, partial: nat, s': State, f: FileId)
    requires Inv(job, s) && Prepares(job, s, fails, partial, s') && f in s.disk.contents && !Mine(s', f)
    ensures Untouched(s.disk, s'.disk, f)
  {
  }

  lemma CommittingSparesOthers(job: Job, s: State, fails: bool, s': State, f: FileId)
    requires Inv(job, s) && Commits(s, fails, s') && f in s.disk.contents && !Mine(s', f)
    ensures Untouched(s.disk, s'.disk, f)
  {
  }

  lemma FinishingSparesOthers(job: Job, s: State, fails: bool, s': State, f: FileId)
    requires Inv(job, s) && Finishes(s, fails, s') && f in s.disk.contents && !Mine(s', f)
    ensures Untouched(s.disk, s'.disk, f)
  {
  }

  // ---- How it ends -------------------------------------------------------

  /** Success: the INI's name leads to exactly the new bytes, in the file this commit made. */
  lemma SavedMeansPublished(job: Job, run: seq<State>, moves: seq<Move>, n: nat)
    requires IsRun(job, run, moves) && n < |moves| && moves[n].Own? && run[n + 1].pc == Done(Ok(()))
    ensures NewBytesAt(job, run[n + 1], Path) && run[n + 1].disk == run[n].disk
  {
    EveryRunKeepsInv(job, run, moves, n);
  }

  /** Failure: either nothing was published and, unless deleting it fails, the temporary name is
      gone; or everything was published and only clearing the recovery file is left to do. */
  lemma FailureIsCleanOrPublished(job: Job, run: seq<State>, moves: seq<Move>, n: nat, e: Error)
    requires IsRun(job, run, moves) && n < |moves| && moves[n].Own? && run[n].pc == CleaningUp(Err(e))
    ensures run[n + 1].pc == Done(Err(e))
    ensures run[n].published ==> NewBytesAt(job, run[n + 1], Path)
    ensures !run[n].published && !moves[n].fails ==>
      run[n].temp.value.name.Temp? && run[n].temp.value.name !in run[n + 1].disk.names
  {
    EveryRunKeepsInv(job, run, moves, n);
  }

  // ---- The recovery file -------------------------------------------------

  /** An editor may be giving this name to a file. */
  predicate Puts(move: Move, name: Name) {
    move.Editor?
    && match move.a
       case Create(n, _) => n == name
       case Rename(_, to) => to == name
       case Link(_, to) => to == name
       case _ => false
  }

  predicate PutsRecovery(move: Move) {
    Puts(move, Recovery)
  }

  /** Past the first check a recovery file is this commit's own original, and success leaves none. */
  predicate RecoveryIsOurs(s: State) {
    !s.pc.Checking? && !Over(s) && Recovery in s.disk.names ==>
      && s.original.Some? && s.original.value.name == Recovery
      && !(s.pc.Closing? && s.pc.outcome.Ok?) && !(s.pc.CleaningUp? && s.pc.outcome.Ok?)
  }

  lemma StepKeepsRecoveryOurs(job: Job, s: State, move: Move, s': State)
    requires Inv(job, s) && Step(job, s, move, s') && RecoveryIsOurs(s) && !PutsRecovery(move)
    ensures RecoveryIsOurs(s')
  {
  }

  lemma {:induction false} RunKeepsRecoveryOurs(job: Job, run: seq<State>, moves: seq<Move>, n: nat)
    requires IsRun(job, run, moves) && n < |run| && forall i :: 0 <= i < n ==> !PutsRecovery(moves[i])
    ensures RecoveryIsOurs(run[n])
  {
    if n > 0 {
      RunKeepsRecoveryOurs(job, run, moves, n - 1);
      EveryRunKeepsInv(job, run, moves, n - 1);
      StepKeepsRecoveryOurs(job, run[n - 1], moves[n - 1], run[n]);
    }
  }

  /** Success leaves no recovery file, unless an editor makes one. */
  lemma SavedLeavesNoRecovery(job: Job, run: seq<State>, moves: seq<Move>, n: nat)
    requires IsRun(job, run, moves) && n < |moves| && moves[n].Own? && run[n + 1].pc == Done(Ok(()))
    requires forall i :: 0 <= i < n ==> !PutsRecovery(moves[i])
    ensures Recovery !in run[n + 1].disk.names
  {
    RunKeepsRecoveryOurs(job, run, moves, n);
    EveryRunKeepsInv(job, run, moves, n);
  }

  /** The last temporary name tried is the one in use, until the file is published. */
  predicate TempFollows(s: State) {
    s.temp.Some? && !Over(s) ==>
      && s.sequence > 0
      && (if s.published then Temp(s.sequence - 1) !in s.disk.names else s.temp.value.name == Temp(s.sequence - 1))
  }

  lemma StepKeepsTemp(job: Job, s: State, move: Move, s': State)
    requires Inv(job, s) && Step(job, s, move, s') && TempFollows(s)
    requires s.sequence > 0 ==> !Puts(move, Temp(s.sequence - 1))
    ensures TempFollows(s')
  {
  }

  lemma {:induction false} RunKeepsTemp(job: Job, run: seq<State>, moves: seq<Move>, n: nat)
    requires IsRun(job, run, moves) && n < |run| && forall i, k: nat :: 0 <= i < n ==> !Puts(moves[i], Temp(k))
    ensures TempFollows(run[n])
  {
    if n > 0 {
      RunKeepsTemp(job, run, moves, n - 1);
      EveryRunKeepsInv(job, run, moves, n - 1);
      StepKeepsTemp(job, run[n - 1], moves[n - 1], run[n]);
    }
  }

  /** Nor does it leave its temporary name behind, unless an editor uses one. */
  lemma SavedLeavesNoTemp(job: Job, run: seq<State>, moves: seq<Move>, n: nat)
    requires IsRun(job, run, moves) && n < |moves| && moves[n].Own? && run[n + 1].pc == Done(Ok(()))
    requires forall i, k: nat :: 0 <= i < n ==> !Puts(moves[i], Temp(k))
    ensures run[n].sequence > 0 && Temp(run[n].sequence - 1) !in run[n + 1].disk.names
  {
    RunKeepsTemp(job, run, moves, n);
    EveryRunKeepsInv(job, run, moves, n);
  }

  /** The step at which the temporary file takes the INI's name. */
  predicate Publication(s: State, s': State) {
    !s.published && s'.published
  }

  /** A recovery file present at publication is the commit's own when there was an INI to keep;
      and when there was none, no recovery file is present unless an editor makes one. */
  lemma PublicationRespectsRecovery(job: Job, run: seq<State>, moves: seq<Move>, n: nat)
    requires IsRun(job, run, moves) && n < |moves| && Publication(run[n], run[n + 1])
    ensures job.expected.Some? ==> OriginalAt(job, run[n + 1], Recovery)
    ensures job.expected.None? && Recovery in run[n + 1].disk.names ==> exists i :: 0 <= i < n && PutsRecovery(moves[i])
  {
    EveryRunKeepsInv(job, run, moves, n);
    if job.expected.None? && Recovery in run[n + 1].disk.names && forall i :: 0 <= i < n ==> !PutsRecovery(moves[i]) {
      RunKeepsRecoveryOurs(job, run, moves, n);
      assert false;
    }
  }

  lemma {:induction false} RecoveryEndsCommits(job: Job, run: seq<State>, moves: seq<Move>, first: nat, n: nat)
    requires IsRun(job, run, moves) && first < n < |run| && moves[first].Own?
    requires run[first].pc.Checking? && Recovery in run[first].disk.names
    ensures run[n].pc.Dead? || (run[n].pc.Done? && run[n].pc.outcome.Err?)
  {
    if first < n - 1 {
      RecoveryEndsCommits(job, run, moves, first, n - 1);
      OverStaysOver(job, run[n - 1], moves[n - 1], run[n]);
    } else {
      RecoveryEndsTheCheck(job, run[first], moves[first], run[n]);
    }
  }

  /** While a recovery file is there when a commit begins, it changes nothing and fails. */
  lemma RecoveryBlocksCommits(job: Job, run: seq<State>, moves: seq<Move>, first: nat, n: nat)
    requires IsRun(job, run, moves) && first <= n < |moves| && moves[first].Own?
    requires run[first].pc.Checking? && Recovery in run[first].disk.names
    ensures moves[n].Own? ==> run[n + 1].disk == run[n].disk
    ensures run[n + 1].pc.Dead? || (run[n + 1].pc.Done? && run[n + 1].pc.outcome.Err?)
  {
    RecoveryEndsCommits(job, run, moves, first, n + 1);
    if first < n {
      RecoveryEndsCommits(job, run, moves, first, n);
      OverStaysOver(job, run[n], moves[n], run[n + 1]);
    } else {
      RecoveryEndsTheCheck(job, run[n], moves[n], run[n + 1]);
    }
  }

  lemma OverStaysOver(job: Job, s: State, move: Move, s': State)
    requires Over(s) && Step(job, s, move, s')
    ensures !move.Own? && (s'.pc == s.pc || s'.pc.Dead?)
  {
  }

  lemma RecoveryEndsTheCheck(job: Job, s: State, move: Move, s': State)
    requires Step(job, s, move, s') && move.Own? && s.pc.Checking? && Recovery in s.disk.names
    ensures s'.disk == s.disk && s'.pc.Done? && s'.pc.outcome.Err?
  {
  }

  // ---- After a crash -----------------------------------------------------

  /** `load_at` reads the INI, or takes the defaults in its place, only while there is no recovery file. */
  predicate MayLoad(d: Disk) {
    Recovery !in d.names
  }

  /** The edit neither deletes nor renames the recovery file. */
  predicate LeavesRecovery(a: Action) {
    a != Delete(Recovery) && !(a.Rename? && a.from == Recovery)
  }

  /** Edits made while no commit is running. */
  function EditedAll(d: Disk, edits: seq<Action>): Disk {
    if edits == [] then d else Edited(EditedAll(d, edits[..|edits| - 1]), {}, edits[|edits| - 1])
  }

  /** A commit of any later launch or of any later change of a setting, and the edits before it. */
  datatype Attempt = Attempt(edits: seq<Action>, job: Job, run: seq<State>, moves: seq<Move>)

  /** Commits one after another, each from what the edits since the one before it left, with none of the edits
      taking the recovery file away. */
  ghost predicate IsChain(d: Disk, later: seq<Attempt>)
    decreases |later|
  {
    later == []
    || (var t := later[0];
        && IsRun(t.job, t.run, t.moves) && t.run[0].disk == EditedAll(d, t.edits)
        && (forall a <- t.edits :: LeavesRecovery(a)) && (forall move <- t.moves :: move.Editor? ==> LeavesRecovery(move.a))
        && IsChain(t.run[|t.moves|].disk, later[1..]))
  }

  lemma {:induction false} EditsLeaveRecovery(d: Disk, edits: seq<Action>)
    requires Recovery in d.names && forall a <- edits :: LeavesRecovery(a)
    ensures Recovery in EditedAll(d, edits).names
  {
    if edits != [] {
      var init, last := edits[..|edits| - 1], edits[|edits| - 1];
      EditsLeaveRecovery(d, init);
      assert last in edits;
    }
  }

  /** A recovery file is there, and the commit has not begun or has failed. */
  predicate IsBlocked(s: State) {
    Recovery in s.disk.names && (s.pc.Checking? || s.pc.Dead? || (s.pc.Done? && s.pc.outcome.Err?))
  }

  lemma BlockedGoesOn(job: Job, s: State, move: Move, s': State)
    requires IsBlocked(s) && Step(job, s, move, s') && (move.Editor? ==> LeavesRecovery(move.a))
    ensures IsBlocked(s') && (move.Own? ==> s'.disk == s.disk)
  {
    if move.Own? {
      if s.pc.Checking? {
        RecoveryEndsTheCheck(job, s, move, s');
      } else {
        OverStaysOver(job, s, move, s');
      }
    }
  }

  lemma {:induction false} BlockedThroughout(t: Attempt, m: nat)
    requires IsRun(t.job, t.run, t.moves) && Recovery in t.run[0].disk.names && m < |t.run|
    requires forall move <- t.moves :: move.Editor? ==> LeavesRecovery(move.a)
    ensures IsBlocked(t.run[m])
  {
    if m > 0 {
      BlockedThroughout(t, m - 1);
      assert Step(t.job, t.run[m - 1], t.moves[m - 1], t.run[m]) && t.moves[m - 1] in t.moves;
      BlockedGoesOn(t.job, t.run[m - 1], t.moves[m - 1], t.run[m]);
    }
  }

  lemma {:induction false} ChainIsBlocked(d: Disk, later: seq<Attempt>, k: nat, m: nat)
    requires Recovery in d.names && IsChain(d, later) && k < |later| && m < |later[k].moves|
    ensures var t := later[k];
      && m + 1 < |t.run| && IsBlocked(t.run[m]) && IsBlocked(t.run[m + 1])
      && (t.moves[m].Own? ==> t.run[m + 1].disk == t.run[m].disk)
    decreases k
  {
    var t := later[0];
    EditsLeaveRecovery(d, t.edits);
    if k == 0 {
      BlockedThroughout(t, m);
      assert Step(t.job, t.run[m], t.moves[m], t.run[m + 1]) && t.moves[m] in t.moves;
      BlockedGoesOn(t.job, t.run[m], t.moves[m], t.run[m + 1]);
    } else {
      BlockedThroughout(t, |t.moves|);
      ChainIsBlocked(t.run[|t.moves|].disk, later[1..], k - 1, m);
    }
  }

  /** So once a commit has died with the original set aside, then, until somebody takes the recovery file away,
      every later commit fails without a change to any file, and no launch loads anything or invents defaults. */
  lemma InterruptedCommitBlocksTheNext(
      job: Job, run: seq<State>, moves: seq<Move>, n: nat, later: seq<Attempt>, k: nat, m: nat)
    requires IsRun(job, run, moves) && n < |moves| && moves[n] == Crash
    requires run[n].pc.OriginalMoved? || run[n].pc.Publishing? || run[n].pc.PuttingBack?
    requires IsChain(run[n + 1].disk, later) && k < |later| && m < |later[k].moves|
    ensures var t := later[k];
      && m + 1 < |t.run| && !MayLoad(t.run[m].disk) && !MayLoad(t.run[m + 1].disk)
      && (t.moves[m].Own? ==> t.run[m + 1].disk == t.run[m].disk)
      && !(t.run[m + 1].pc.Done? && t.run[m + 1].pc.outcome.Ok?)
  {
    EveryRunKeepsInv(job, run, moves, n);
    assert Step(job, run[n], moves[n], run[n + 1]);
    ChainIsBlocked(run[n + 1].disk, later, k, m);
  }

  // ---- The gap left when there was no INI --------------------------------

  lemma Extend(job: Job, run: seq<State>, moves: seq<Move>, move: Move, s': State)
    requires IsRun(job, run, moves) && Step(job, run[|moves|], move, s')
    ensures IsRun(job, run + [s'], moves + [move])
  {
  }

  const GO := Own(false, 0)

  /** An undisturbed first launch gets as far as the second check for a recovery file. */
  lemma ReachesRecheck(disk: Disk, sequence: nat, bytes: Bytes) returns (run: seq<State>, moves: seq<Move>)
    requires WellFormed(disk) && |bytes| <= MAX_INI_BYTES
    requires Path !in disk.names && Recovery !in disk.names && Temp(sequence) !in disk.names
    ensures IsRun(Job(None, bytes), run, moves) && run[0].disk == disk
    ensures run[|moves|] == State(
      Written(Created(disk, Temp(sequence), []), disk.next, bytes), sequence + 1, Rechecking,
      Some(Handle(disk.next, Temp(sequence))), None, false)
  {
    var job := Job(None, bytes);
    var s := Begin(disk, sequence);
    run, moves := [s], [];
    s := s.(pc := Reserving(NAME_TRIES));
    Extend(job, run, moves, GO, s);
    run, moves := run + [s], moves + [GO];
    s := s.(pc := Prepared, sequence := sequence + 1, disk := Created(disk, Temp(sequence), []),
            temp := Some(Handle(disk.next, Temp(sequence))));
    Extend(job, run, moves, GO, s);
    run, moves := run + [s], moves + [GO];
    s := s.(pc := Filling);
    Extend(job, run, moves, GO, s);
    run, moves := run + [s], moves + [GO];
    s := s.(pc := Syncing, disk := Written(s.disk, disk.next, bytes));
    Extend(job, run, moves, GO, s);
    run, moves := run + [s], moves + [GO];
    s := s.(pc := Rechecking);
    Extend(job, run, moves, GO, s);
    run, moves := run + [s], moves + [GO];
  }

  /** With no INI to keep, "while a recovery file exists, nothing is published" is false: between
      the second check and the publication an editor can make one. On any such directory: */
  lemma PublishesBesideARecovery(disk: Disk, sequence: nat, bytes: Bytes, theirs: Bytes)
      returns (run: seq<State>, moves: seq<Move>)
    requires WellFormed(disk) && |bytes| <= MAX_INI_BYTES
    requires Path !in disk.names && Recovery !in disk.names && Temp(sequence) !in disk.names
    ensures IsRun(Job(None, bytes), run, moves) && run[0].disk == disk
    ensures var n := |moves| - 1;
            n >= 0 && Recovery in run[n].disk.names && Publication(run[n], run[n + 1])
  {
    run, moves := ReachesRecheck(disk, sequence, bytes);
    var job := Job(None, bytes);
    var s := run[|moves|].(pc := PublishingNew);
    Extend(job, run, moves, GO, s);
    run, moves := run + [s], moves + [GO];
    s := s.(disk := Created(s.disk, Recovery, theirs));
    Extend(job, run, moves, Editor(Create(Recovery, theirs)), s);
    run, moves := run + [s], moves + [Editor(Create(Recovery, theirs))];
    s := s.(pc := Published, published := true, disk := Renamed(s.disk, Temp(sequence), Path),
            temp := Some(Handle(disk.next, Path)));
    Extend(job, run, moves, GO, s);
    run, moves := run + [s], moves + [GO];
  }

  /** That window is the only one: seen between the second check and the publication. */
  lemma {:induction false} OnlyTheWindowLetsARecoveryIn(
      job: Job, run: seq<State>, moves: seq<Move>, check: nat, n: nat)
    requires IsRun(job, run, moves) && check < n < |run|
    requires run[check].pc.Rechecking? && moves[check].Own? && run[n].pc.PublishingNew?
    requires forall i :: check < i < n ==> !PutsRecovery(moves[i])
    ensures Recovery !in run[n].disk.names
  {
    assert Step(job, run[n - 1], moves[n - 1], run[n]);
    if run[n - 1].pc.PublishingNew? && check < n - 1 {
      OnlyTheWindowLetsARecoveryIn(job, run, moves, check, n - 1);
    } else if check < n - 1 {
      RecheckedOnce(job, run, moves, check, n - 1);
      assert false;
    }
  }

  lemma {:induction false} RecheckedOnce(job: Job, run: seq<State>, moves: seq<Move>, check: nat, n: nat)
    requires IsRun(job, run, moves) && check < n < |run| && run[check].pc.Rechecking? && moves[check].Own?
    ensures run[n].pc.PublishingNew? || run[n].pc.Published? || run[n].pc.Discarding? || run[n].pc.Closing?
            || run[n].pc.CleaningUp? || Over(run[n])
  {
    assert Step(job, run[n - 1], moves[n - 1], run[n]);
    if check < n - 1 {
      RecheckedOnce(job, run, moves, check, n - 1);
    }
  }

  /** Whatever editors do, a recovery file that is there when this job's file is published is the
      job's own original. */
  ghost predicate NeverBesideAForeignRecovery(job: Job) {
    forall run: seq<State>, moves: seq<Move>, n: nat ::
      IsRun(job, run, moves) && n < |moves| && Publication(run[n], run[n + 1]) && Recovery in run[n].disk.names ==>
        OriginalAt(job, run[n], Recovery)
  }

  /** That holds of a job exactly when there is an INI for it to keep. */
  lemma ForeignRecoveriesAreKeptOut(job: Job)
    requires |job.bytes| <= MAX_INI_BYTES
    ensures NeverBesideAForeignRecovery(job) <==> job.expected.Some?
  {
    if job.expected.Some? {
      forall run: seq<State>, moves: seq<Move>, n: nat
        | IsRun(job, run, moves) && n < |moves| && Publication(run[n], run[n + 1]) && Recovery in run[n].disk.names
        ensures OriginalAt(job, run[n], Recovery)
      {
        EveryRunKeepsInv(job, run, moves, n);
        OwnOriginalAtPublication(job, run[n], moves[n], run[n + 1]);
      }
    } else {
      var run, moves := PublishesBesideARecovery(Disk(map[], map[], 0), 0, job.bytes, []);
      assert job == Job(None, job.bytes);
      var n: nat := |moves| - 1;
      assert IsRun(job, run, moves) && n < |moves| && Publication(run[n], run[n + 1]) && Recovery in run[n].disk.names;
      assert !OriginalAt(job, run[n], Recovery);
    }
  }

  lemma OwnOriginalAtPublication(job: Job, s: State, move: Move, s': State)
    requires Inv(job, s) && Step(job, s, move, s') && Publication(s, s') && job.expected.Some?
    ensures OriginalAt(job, s, Recovery)
  {
  }
}
