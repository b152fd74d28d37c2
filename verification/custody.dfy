/** localVaultState.save (localstate.go): credentials replaced through a temporary
    file, fsync, rename and a directory fsync. */
module Custody {
  import opened Storage

  /** How one file operation went. Partly: a write stopped midway. */
  datatype Io = Works | Fails | Partly(raw: string)

  datatype Pc =
    | CreateTemp | WriteTemp(ino: nat) | SyncTemp(ino: nat) | CloseTemp(ino: nat, failed: bool)
    | RenameTemp(ino: nat) | OpenDir | SyncDir
    | Saved | NotSaved
  {
    predicate Finished() { Saved? || NotSaved? }

    function Rank(): nat {
      match this
      case CreateTemp => 7
      case WriteTemp(_) => 6
      case SyncTemp(_) => 5
      case CloseTemp(_, _) => 4
      case RenameTemp(_) => 3
      case OpenDir => 2
      case SyncDir => 1
      case _ => 0
    }
  }

  /** One operation of save. On an error the deferred removal takes the temporary file
      with it; after the rename there is none left to take. */
  function Step(d: Disk, pc: Pc, c: Credentials, io: Io): (Disk, Pc) {
    match pc
    case CreateTemp =>
      if io.Works? then (Storage.CreateTemp(d), WriteTemp(d.next)) else (d, NotSaved)
    case WriteTemp(ino) =>
      if io.Works? then (Write(d, ino, Encoded(c)), SyncTemp(ino))
      else if io.Partly? then (Write(d, ino, Torn(io.raw)), CloseTemp(ino, true))
      else (d, CloseTemp(ino, true))
    case SyncTemp(ino) =>
      if io.Works? && ino in d.files then (SyncFile(d, ino), CloseTemp(ino, false)) else (d, CloseTemp(ino, true))
    case CloseTemp(ino, failed) =>
      if io.Works? && !failed then (d, RenameTemp(ino)) else (Remove(d, Temp(ino)), NotSaved)
    case RenameTemp(ino) =>
      if io.Works? then (Rename(d, ino), OpenDir) else (Remove(d, Temp(ino)), NotSaved)
    case OpenDir => (d, if io.Works? then SyncDir else NotSaved)
    case SyncDir => if io.Works? then (SyncDirectory(d), Saved) else (d, NotSaved)
    case _ => (d, pc)
  }

  function Exec(d: Disk, c: Credentials, ios: seq<Io>): (Disk, Pc)
    decreases |ios|
  {
    if ios == [] then (d, CreateTemp)
    else
      var (e, pc) := Exec(d, c, ios[..|ios| - 1]);
      Step(e, pc, c, ios[|ios| - 1])
  }

  lemma ExecStep(d: Disk, c: Credentials, ios: seq<Io>, io: Io)
    ensures Exec(d, c, ios + [io]) == Step(Exec(d, c, ios).0, Exec(d, c, ios).1, c, io)
  {
    assert (ios + [io])[..|ios|] == ios;
  }

  lemma NothingYet(d: Disk, c: Credentials)
    ensures Exec(d, c, []) == (d, CreateTemp)
  {
  }

  // ------------------------------------------------------------ what save keeps

  /** The temporary file is nobody's candidate, and becomes one only when it holds the
      new credentials on the platter. */
  ghost predicate InProgress(d: Disk, pc: Pc, c: Credentials) {
    match pc
    case WriteTemp(ino) => ino in d.files && ino < d.next && !Candidate(d, ino)
    case SyncTemp(ino) => ino in d.files && ino < d.next && !Candidate(d, ino) && d.files[ino].content == Encoded(c)
    case CloseTemp(ino, failed) => ino in d.files && ino < d.next && !Candidate(d, ino) && (!failed ==> d.files[ino] == File(Encoded(c), true))
    case RenameTemp(ino) => ino in d.files && ino < d.next && !Candidate(d, ino) && d.files[ino] == File(Encoded(c), true)
    case OpenDir => Load(d) == Valid(c)
    case SyncDir => Load(d) == Valid(c)
    case Saved => Load(d) == Valid(c) && d.pending == []
    case _ => true
  }

  /** Every candidate after is one from before, unchanged, or holds the new credentials. */
  ghost predicate OldOrNew(d: Disk, e: Disk, c: Credentials) {
    && (forall ino: nat :: Candidate(e, ino) ==>
          ino in e.files && ((Candidate(d, ino) && ino in d.files && e.files[ino] == d.files[ino]) || e.files[ino].content == Encoded(c)))
    && (CredentialsFile in d.durable ==> CredentialsFile in e.durable)
  }

  /** What running processes see: the old credentials or the new ones. */
  predicate SeesOldOrNew(d: Disk, e: Disk, c: Credentials) {
    Load(e) == Load(d) || Load(e) == Valid(c)
  }

  function Pend(d: Disk, op: DirOp): Disk {
    d.(pending := d.pending + [op])
  }

  lemma PendingCandidates(d: Disk, op: DirOp)
    ensures forall ino: nat :: Candidate(Pend(d, op), ino) <==> Candidate(d, ino) || NamesCredentials(op, ino)
  {
    var e := Pend(d, op);
    forall ino: nat ensures Candidate(e, ino) <==> Candidate(d, ino) || NamesCredentials(op, ino) {
      if Candidate(d, ino) && !(CredentialsFile in d.durable && d.durable[CredentialsFile] == ino) {
        var i :| 0 <= i < |d.pending| && NamesCredentials(d.pending[i], ino);
        assert e.pending[i] == d.pending[i];
      }
      if NamesCredentials(op, ino) { assert e.pending[|d.pending|] == op; }
    }
    assert e.pending[..|e.pending| - 1] == d.pending;
  }

  lemma PendingView(d: Disk, op: DirOp)
    ensures View(Pend(d, op)) == ApplyOp(View(d), op)
  {
    assert (d.pending + [op])[..|d.pending|] == d.pending;
  }

  /** A file that is no candidate can be written and synced without anyone noticing. */
  lemma TouchingTemp(d: Disk, ino: nat, f: File)
    requires Safe(d) && !Candidate(d, ino) && ino < d.next
    ensures var e := d.(files := d.files[ino := f]);
            Safe(e) && (forall i: nat :: Candidate(e, i) <==> Candidate(d, i)) && Load(e) == Load(d)
  {
    var e := d.(files := d.files[ino := f]);
    forall i: nat ensures Candidate(e, i) <==> Candidate(d, i) {
    }
    ViewIsCandidate(d);
  }

  lemma RemovingTemp(d: Disk, id: nat)
    requires Safe(d)
    ensures var e := Remove(d, Temp(id));
            Safe(e) && (forall i: nat :: Candidate(e, i) <==> Candidate(d, i)) && Load(e) == Load(d)
            && e.files == d.files && e.durable == d.durable
  {
    if Temp(id) in View(d) {
      UnlinkingTemp(d, id);
      assert Remove(d, Temp(id)) == Pend(d, Unlink(Temp(id)));
    } else {
      assert Remove(d, Temp(id)) == d;
    }
  }

  lemma UnlinkingTemp(d: Disk, id: nat)
    requires Safe(d)
    ensures var e := Pend(d, Unlink(Temp(id)));
            Safe(e) && (forall i: nat :: Candidate(e, i) <==> Candidate(d, i)) && Load(e) == Load(d)
  {
    hide Candidate, View, HoldsCredentials;
    var op := Unlink(Temp(id));
    var e := Pend(d, op);
    PendingCandidates(d, op);
    PendingView(d, op);
    forall i | 0 <= i < |e.pending| ensures OnlyMovesName(e.pending[i]) {
      assert e.pending[i] == if i < |d.pending| then d.pending[i] else op;
    }
    assert forall i: nat :: Candidate(e, i) <==> Candidate(d, i);
    forall i: nat | Candidate(e, i) ensures HoldsCredentials(e, i) && i < e.next {
      SameFile(d, e, i);
    }
    SameLoad(d, e);
  }

  lemma SameFile(d: Disk, e: Disk, ino: nat)
    requires e.files == d.files
    ensures HoldsCredentials(e, ino) <==> HoldsCredentials(d, ino)
  {
  }

  lemma SameLoad(d: Disk, e: Disk)
    requires e.files == d.files
    requires CredentialsFile in View(e) <==> CredentialsFile in View(d)
    requires CredentialsFile in View(e) ==> View(e)[CredentialsFile] == View(d)[CredentialsFile]
    ensures Load(e) == Load(d)
  {
  }

  lemma CreatingTemp(d: Disk)
    requires Safe(d)
    ensures var e := Storage.CreateTemp(d);
            && Safe(e) && (forall i: nat :: Candidate(e, i) <==> Candidate(d, i)) && Load(e) == Load(d)
            && !Candidate(e, d.next) && d.next in e.files
  {
    TouchingNext(d);
    var f := d.(files := d.files[d.next := File(Torn(""), false)], next := d.next + 1);
    PendingCandidates(f, Link(Temp(d.next), d.next));
    PendingView(f, Link(Temp(d.next), d.next));
  }

  lemma TouchingNext(d: Disk)
    requires Safe(d)
    ensures var e := d.(files := d.files[d.next := File(Torn(""), false)], next := d.next + 1);
            Safe(e) && (forall i: nat :: Candidate(e, i) <==> Candidate(d, i)) && Load(e) == Load(d) && !Candidate(e, d.next)
  {
    var e := d.(files := d.files[d.next := File(Torn(""), false)], next := d.next + 1);
    forall i: nat ensures Candidate(e, i) <==> Candidate(d, i) {
    }
    ViewIsCandidate(d);
  }

  lemma Renaming(d: Disk, ino: nat, c: Credentials)
    requires Safe(d) && ino in d.files && ino < d.next && d.files[ino] == File(Encoded(c), true) && Complete(c)
    ensures var e := Rename(d, ino);
            && Safe(e) && Load(e) == Valid(c) && e.files == d.files && e.durable == d.durable
            && (forall i: nat :: Candidate(e, i) <==> Candidate(d, i) || i == ino)
  {
    PendingCandidates(d, Move(Temp(ino), CredentialsFile, ino));
    PendingView(d, Move(Temp(ino), CredentialsFile, ino));
  }

  lemma SyncingDirectory(d: Disk)
    requires Safe(d)
    ensures var e := SyncDirectory(d);
            && Safe(e) && Load(e) == Load(d) && e.pending == [] && e.files == d.files
            && (forall i: nat :: Candidate(e, i) ==> Candidate(d, i))
            && (CredentialsFile in View(d) ==> CredentialsFile in e.durable)
  {
    ViewIsCandidate(d);
    assert View(SyncDirectory(d)) == View(d);
  }

  lemma StepKeeps(d: Disk, pc: Pc, c: Credentials, io: Io)
    requires Safe(d) && InProgress(d, pc, c) && Complete(c)
    ensures var (e, next) := Step(d, pc, c, io);
            Safe(e) && InProgress(e, next, c) && OldOrNew(d, e, c) && SeesOldOrNew(d, e, c)
    ensures pc.Finished() || Step(d, pc, c, io).1.Rank() < pc.Rank()
  {
    match pc
    case CreateTemp => CreatingTemp(d);
    case WriteTemp(ino) =>
      TouchingTemp(d, ino, File(Encoded(c), false));
      if io.Partly? { TouchingTemp(d, ino, File(Torn(io.raw), false)); }
    case SyncTemp(ino) => TouchingTemp(d, ino, File(Encoded(c), true));
    case CloseTemp(ino, _) => RemovingTemp(d, ino);
    case RenameTemp(ino) =>
      RemovingTemp(d, ino);
      Renaming(d, ino, c);
    case SyncDir =>
      SyncingDirectory(d);
      NamedByApply(d.durable, d.pending);
    case _ =>
  }

  lemma {:induction false} ExecKeeps(d: Disk, c: Credentials, ios: seq<Io>)
    requires Safe(d) && Complete(c)
    ensures var (e, pc) := Exec(d, c, ios);
            Safe(e) && InProgress(e, pc, c) && OldOrNew(d, e, c) && SeesOldOrNew(d, e, c)
    decreases |ios|
  {
    if ios != [] {
      ExecKeeps(d, c, ios[..|ios| - 1]);
      var (e, pc) := Exec(d, c, ios[..|ios| - 1]);
      StepKeeps(e, pc, c, ios[|ios| - 1]);
    }
  }

  predicate AllWork(ios: seq<Io>) {
    forall i | 0 <= i < |ios| :: ios[i].Works?
  }

  function FirstSeven(ios: seq<Io>): seq<Io> {
    if |ios| >= 7 then ios[..7] else ios
  }

  /** The steps of a save nothing goes wrong in. */
  function StraightOn(d: Disk, n: nat): Pc {
    if n == 0 then CreateTemp
    else if n == 1 then WriteTemp(d.next)
    else if n == 2 then SyncTemp(d.next)
    else if n == 3 then CloseTemp(d.next, false)
    else if n == 4 then RenameTemp(d.next)
    else if n == 5 then OpenDir
    else if n == 6 then SyncDir
    else Saved
  }

  predicate Doomed(pc: Pc) {
    pc.NotSaved? || (pc.CloseTemp? && pc.failed)
  }

  predicate OnTheWay(d: Disk, e: Disk, pc: Pc, n: nat) {
    pc == StraightOn(d, n) && (if n == 0 then e == d else d.next in e.files)
  }

  lemma WorkingStep(d: Disk, e: Disk, pc: Pc, n: nat, c: Credentials, io: Io)
    requires OnTheWay(d, e, pc, n)
    ensures var (f, next) := Step(e, pc, c, io);
            if n >= 7 || io.Works? then OnTheWay(d, f, next, n + 1) else Doomed(next)
  {
  }

  lemma DoomedStays(e: Disk, pc: Pc, c: Credentials, io: Io)
    requires Doomed(pc)
    ensures Doomed(Step(e, pc, c, io).1)
  {
  }

  /** save returns nil if and only if all seven of its file operations worked. */
  lemma {:induction false} SavedExactlyWhen(d: Disk, c: Credentials, ios: seq<Io>)
    ensures var (e, pc) := Exec(d, c, ios);
            && (pc.Saved? <==> |ios| >= 7 && AllWork(ios[..7]))
            && (if AllWork(FirstSeven(ios)) then OnTheWay(d, e, pc, |ios|) else Doomed(pc))
    decreases |ios|
  {
    hide Step;
    if ios != [] {
      var n := |ios| - 1;
      var (e, pc) := Exec(d, c, ios[..n]);
      SavedExactlyWhen(d, c, ios[..n]);
      SevenOf(ios);
      if AllWork(FirstSeven(ios[..n])) {
        WorkingStep(d, e, pc, n, c, ios[n]);
      } else {
        DoomedStays(e, pc, c, ios[n]);
      }
    }
  }

  lemma SevenOf(ios: seq<Io>)
    requires ios != []
    ensures var n := |ios| - 1;
            AllWork(FirstSeven(ios)) <==> AllWork(FirstSeven(ios[..n])) && (n >= 7 || ios[n].Works?)
  {
    var n := |ios| - 1;
    if n >= 7 {
      assert ios[..n][..7] == ios[..7];
    } else {
      assert FirstSeven(ios) == ios[..n] + [ios[n]] == ios;
      assert FirstSeven(ios[..n]) == ios[..n];
    }
  }

  /** The temporary file that a save may have on the disk where it stands. */
  ghost predicate Tidy(d: Disk, e: Disk, pc: Pc) {
    match pc
    case WriteTemp(ino) => ino == d.next && OneMoreTemp(d, e)
    case SyncTemp(ino) => ino == d.next && OneMoreTemp(d, e)
    case CloseTemp(ino, _) => ino == d.next && OneMoreTemp(d, e)
    case RenameTemp(ino) => ino == d.next && OneMoreTemp(d, e)
    case _ => SameTemps(d, e)
  }

  ghost predicate SameTemps(d: Disk, e: Disk) {
    forall id: nat :: Temp(id) in View(e) <==> Temp(id) in View(d)
  }

  ghost predicate OneMoreTemp(d: Disk, e: Disk) {
    forall id: nat :: Temp(id) in View(e) <==> Temp(id) in View(d) || id == d.next
  }

  lemma StepStaysTidy(d: Disk, e: Disk, pc: Pc, c: Credentials, io: Io)
    requires Tidy(d, e, pc) && Temp(d.next) !in View(d) && (pc.CreateTemp? ==> e == d)
    ensures var (f, next) := Step(e, pc, c, io); Tidy(d, f, next) && !next.CreateTemp?
  {
    match pc
    case CreateTemp => PendingView(d.(files := d.files[d.next := File(Torn(""), false)], next := d.next + 1), Link(Temp(d.next), d.next));
      assert Storage.CreateTemp(d) == Pend(d.(files := d.files[d.next := File(Torn(""), false)], next := d.next + 1), Link(Temp(d.next), d.next));
    case CloseTemp(ino, _) => PendingView(e, Unlink(Temp(ino)));
    case RenameTemp(ino) =>
      PendingView(e, Unlink(Temp(ino)));
      PendingView(e, Move(Temp(ino), CredentialsFile, ino));
    case SyncDir => assert View(SyncDirectory(e)) == View(e);
    case _ =>
  }

  /** However a save ends, and whatever failed in it, its temporary file is gone. */
  lemma {:induction false} NoTempLeft(d: Disk, c: Credentials, ios: seq<Io>)
    requires Temp(d.next) !in View(d)
    ensures var (e, pc) := Exec(d, c, ios);
            && Tidy(d, e, pc) && (pc.CreateTemp? ==> e == d)
            && (pc.Finished() ==> SameTemps(d, e))
    decreases |ios|
  {
    hide Step, View;
    if ios != [] {
      NoTempLeft(d, c, ios[..|ios| - 1]);
      var (e, pc) := Exec(d, c, ios[..|ios| - 1]);
      StepStaysTidy(d, e, pc, c, ios[|ios| - 1]);
    }
  }

  /** A save cut by a process crash or a power failure after any of its operations,
      whichever of them failed: load returns what it could have returned without the
      save, or the complete new credentials. Once save has returned nil, nothing but
      the new ones survives any crash. */
  lemma SaveIsAtomicAndDurable(d: Disk, c: Credentials, ios: seq<Io>, r: Loaded)
    requires Safe(d) && Complete(c)
    ensures var (e, pc) := Exec(d, c, ios);
            && (Load(e) == Load(d) || Load(e) == Valid(c))
            && (MayLoad(e, r) ==> MayLoad(d, r) || r == Valid(c))
            && (pc.Saved? ==> Load(e) == Valid(c) && (MayLoad(e, r) ==> r == Valid(c)))
  {
    ExecKeeps(d, c, ios);
    var (e, pc) := Exec(d, c, ios);
    CrashOutcomes(e, r);
    CrashOutcomes(d, r);
    if pc.Saved? {
      ViewIsCandidate(e);
      assert View(e) == e.durable;
    }
  }
}
