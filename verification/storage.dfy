/** A directory on a disk, as far as crashes can tell: what has reached the platter
    and which directory operations are still pending. */
module Storage {

  /** What the local runtime keeps of one initialization (localVaultCredentials). */
  datatype Credentials = Credentials(root: string, unseal: string, access: string)

  /** A file's bytes: the encoding of credentials, or something else. Decoding is
      the inverse of encoding. */
  datatype Content = Encoded(c: Credentials) | Torn(raw: string)

  /** `synced`: the content has reached the platter. */
  datatype File = File(content: Content, synced: bool)

  datatype Name = CredentialsFile | Temp(id: nat)

  datatype DirOp = Link(name: Name, ino: nat) | Move(from: Name, to: Name, ino: nat) | Unlink(name: Name)

  /** `durable` is the directory on the platter; `pending` what was done to it since
      its last sync. Inode numbers from `next` on are free. */
  datatype Disk = Disk(files: map<nat, File>, durable: map<Name, nat>, pending: seq<DirOp>, next: nat)

  const FRESH := Disk(map[], map[], [], 0)

  function ApplyOp(dir: map<Name, nat>, op: DirOp): map<Name, nat> {
    match op
    case Link(name, ino) => dir[name := ino]
    case Move(from, to, ino) => (dir - {from})[to := ino]
    case Unlink(name) => dir - {name}
  }

  function Apply(dir: map<Name, nat>, ops: seq<DirOp>): map<Name, nat>
    decreases |ops|
  {
    if ops == [] then dir else ApplyOp(Apply(dir, ops[..|ops| - 1]), ops[|ops| - 1])
  }

  /** The directory as running processes see it. */
  function View(d: Disk): map<Name, nat> {
    Apply(d.durable, d.pending)
  }

  /** The pending operations a crash happens to keep. */
  function Kept(ops: seq<DirOp>, keep: nat -> bool): seq<DirOp>
    decreases |ops|
  {
    if ops == [] then []
    else
      var n := |ops| - 1;
      Kept(ops[..n], keep) + if keep(n) then [ops[n]] else []
  }

  /** The power goes: any of the pending operations are lost, and files never synced
      hold whatever `lost` says. */
  function Crash(d: Disk, keep: nat -> bool, lost: nat -> Content): Disk {
    Disk(
      map i | i in d.files :: if d.files[i].synced then d.files[i] else File(lost(i), true),
      Apply(d.durable, Kept(d.pending, keep)),
      [],
      d.next)
  }

  // ------------------------------------------------------------ file operations

  /** os.CreateTemp: a fresh name for a fresh, empty file. */
  function CreateTemp(d: Disk): Disk {
    d.(files := d.files[d.next := File(Torn(""), false)],
       pending := d.pending + [Link(Temp(d.next), d.next)],
       next := d.next + 1)
  }

  function Write(d: Disk, ino: nat, content: Content): Disk {
    d.(files := d.files[ino := File(content, false)])
  }

  function SyncFile(d: Disk, ino: nat): Disk
    requires ino in d.files
  {
    d.(files := d.files[ino := d.files[ino].(synced := true)])
  }

  function Rename(d: Disk, ino: nat): Disk {
    d.(pending := d.pending + [Move(Temp(ino), CredentialsFile, ino)])
  }

  function Remove(d: Disk, name: Name): Disk {
    if name in View(d) then d.(pending := d.pending + [Unlink(name)]) else d
  }

  function SyncDirectory(d: Disk): Disk {
    d.(durable := View(d), pending := [])
  }

  // ------------------------------------------------------------ loading

  datatype Loaded = Absent | Invalid | Valid(c: Credentials)

  predicate Complete(c: Credentials) {
    c.root != "" && c.unseal != ""
  }

  /** load, once the read itself works: a missing file is no custody; anything but
      complete credentials is refused. */
  function Load(d: Disk): Loaded {
    var dir := View(d);
    if CredentialsFile !in dir then Absent
    else
      var ino := dir[CredentialsFile];
      if ino in d.files && d.files[ino].content.Encoded? && Complete(d.files[ino].content.c)
      then Valid(d.files[ino].content.c)
      else Invalid
  }

  /** The file credentials.json names holds these credentials, root token and unseal key
      among them. */
  predicate HoldsInFull(d: Disk, c: Credentials) {
    && CredentialsFile in View(d) && View(d)[CredentialsFile] in d.files
    && d.files[View(d)[CredentialsFile]].content == Encoded(c)
    && c.root != "" && c.unseal != ""
  }

  /** On every disk: no custody means no file, custody means complete credentials, and
      everything else is refused. */
  lemma LoadSays(d: Disk)
    ensures Load(d).Absent? <==> CredentialsFile !in View(d)
    ensures forall c :: Load(d) == Valid(c) <==> HoldsInFull(d, c)
    ensures Load(d).Invalid? <==> CredentialsFile in View(d) && forall c :: !HoldsInFull(d, c)
  {
    if Load(d).Valid? {
      assert HoldsInFull(d, Load(d).c);
    }
  }

  /** A file that was never synced may hold anything after a power failure, and a
      directory operation that was not may be gone. */
  lemma UnsyncedMayBeLost(d: Disk, ino: nat, content: Content)
    requires ino in d.files && !d.files[ino].synced
    ensures exists keep: nat -> bool, lost: nat -> Content ::
              Crash(d, keep, lost).durable == d.durable && Crash(d, keep, lost).files[ino].content == content
  {
    var none: nat -> bool, lost: nat -> Content := _ => false, _ => content;
    KeptNone(d.pending, none);
    assert Crash(d, none, lost).durable == d.durable && Crash(d, none, lost).files[ino].content == content;
  }

  // ------------------------------------------------------------ what crashes can leave

  predicate NamesCredentials(op: DirOp, ino: nat) {
    op.Move? && op.to.CredentialsFile? && op.ino == ino
  }

  /** The inodes credentials.json may name after a crash. */
  ghost predicate Candidate(d: Disk, ino: nat) {
    || (CredentialsFile in d.durable && d.durable[CredentialsFile] == ino)
    || exists i :: 0 <= i < |d.pending| && NamesCredentials(d.pending[i], ino)
  }

  predicate HoldsCredentials(d: Disk, ino: nat) {
    && ino in d.files && d.files[ino].synced
    && d.files[ino].content.Encoded? && Complete(d.files[ino].content.c)
  }

  predicate OnlyMovesName(op: DirOp) {
    match op
    case Link(name, _) => name.Temp?
    case Move(from, _, _) => from.Temp?
    case Unlink(name) => name.Temp?
  }

  /** Whatever credentials.json may turn out to be is synced and complete. */
  ghost predicate Safe(d: Disk) {
    && (forall ino: nat :: Candidate(d, ino) ==> HoldsCredentials(d, ino) && ino < d.next)
    && (forall i | 0 <= i < |d.pending| :: OnlyMovesName(d.pending[i]))
  }

  lemma {:induction false} NamedByApply(dir: map<Name, nat>, ops: seq<DirOp>)
    requires forall i | 0 <= i < |ops| :: OnlyMovesName(ops[i])
    ensures CredentialsFile in Apply(dir, ops) ==>
              var ino := Apply(dir, ops)[CredentialsFile];
              || (CredentialsFile in dir && dir[CredentialsFile] == ino)
              || exists i :: 0 <= i < |ops| && NamesCredentials(ops[i], ino)
    ensures CredentialsFile in dir ==> CredentialsFile in Apply(dir, ops)
    ensures (exists i, ino: nat :: 0 <= i < |ops| && NamesCredentials(ops[i], ino)) ==> CredentialsFile in Apply(dir, ops)
    decreases |ops|
  {
    if ops != [] {
      var n := |ops| - 1;
      var before := ops[..n];
      assert forall i | 0 <= i < n :: before[i] == ops[i];
      NamedByApply(dir, before);
      var op := ops[n];
      assert OnlyMovesName(op);
      if op.Move? && op.to.CredentialsFile? {
        assert NamesCredentials(ops[n], op.ino);
      } else {
        assert CredentialsFile in Apply(dir, ops) <==> CredentialsFile in Apply(dir, before);
        forall i, ino: nat | 0 <= i < n && NamesCredentials(before[i], ino) ensures NamesCredentials(ops[i], ino) {
        }
      }
    }
  }

  lemma {:induction false} KeptAreOps(ops: seq<DirOp>, keep: nat -> bool, j: nat)
    requires j < |Kept(ops, keep)|
    ensures exists i :: 0 <= i < |ops| && Kept(ops, keep)[j] == ops[i]
    decreases |ops|
  {
    var n := |ops| - 1;
    if j < |Kept(ops[..n], keep)| {
      KeptAreOps(ops[..n], keep, j);
      var i :| 0 <= i < n && Kept(ops[..n], keep)[j] == ops[..n][i];
      assert ops[i] == ops[..n][i];
    } else {
      assert Kept(ops, keep)[j] == ops[n];
    }
  }

  /** What a process finds there, it finds there for good or for now: a candidate. */
  lemma ViewIsCandidate(d: Disk)
    requires Safe(d)
    ensures CredentialsFile in View(d) ==> Candidate(d, View(d)[CredentialsFile]) && HoldsCredentials(d, View(d)[CredentialsFile])
    ensures CredentialsFile !in View(d) ==> forall ino: nat :: !Candidate(d, ino)
  {
    NamedByApply(d.durable, d.pending);
  }

  /** A crash leaves an old candidate in place, or nothing, and nothing pending. */
  lemma CrashLeavesCandidate(d: Disk, keep: nat -> bool, lost: nat -> Content)
    requires Safe(d)
    ensures var e := Crash(d, keep, lost);
            && Safe(e) && e.pending == []
            && (forall ino: nat :: Candidate(e, ino) ==> Candidate(d, ino) && e.files[ino] == d.files[ino])
            && (CredentialsFile in d.durable ==> CredentialsFile in e.durable)
  {
    var e := Crash(d, keep, lost);
    var kept := Kept(d.pending, keep);
    forall j | 0 <= j < |kept| ensures OnlyMovesName(kept[j]) {
      KeptAreOps(d.pending, keep, j);
    }
    NamedByApply(d.durable, kept);
    forall ino: nat | Candidate(e, ino)
      ensures Candidate(d, ino) && e.files[ino] == d.files[ino] && HoldsCredentials(e, ino)
    {
      if !(CredentialsFile in d.durable && d.durable[CredentialsFile] == ino) {
        var j :| 0 <= j < |kept| && NamesCredentials(kept[j], ino);
        KeptAreOps(d.pending, keep, j);
        var i :| 0 <= i < |d.pending| && kept[j] == d.pending[i];
        assert NamesCredentials(d.pending[i], ino);
      }
      assert Candidate(d, ino);
      assert HoldsCredentials(d, ino);
    }
  }

  // ------------------------------------------------------------ all crash outcomes

  ghost predicate MayLoad(d: Disk, r: Loaded) {
    exists keep: nat -> bool, lost: nat -> Content :: Load(Crash(d, keep, lost)) == r
  }

  /** Absence, if nothing has reached the platter yet, and every candidate. */
  ghost predicate Outcome(d: Disk, r: Loaded) {
    || (r.Absent? && CredentialsFile !in d.durable)
    || exists ino: nat :: Candidate(d, ino) && ino in d.files && d.files[ino].content.Encoded?
                          && r == Valid(d.files[ino].content.c)
  }

  lemma {:induction false} KeptNone(ops: seq<DirOp>, keep: nat -> bool)
    requires forall i: nat | i < |ops| :: !keep(i)
    ensures Kept(ops, keep) == []
    decreases |ops|
  {
    if ops != [] { KeptNone(ops[..|ops| - 1], keep); }
  }

  lemma {:induction false} KeptOne(ops: seq<DirOp>, keep: nat -> bool, j: nat)
    requires j < |ops| && forall i: nat | i < |ops| :: keep(i) <==> i == j
    ensures Kept(ops, keep) == [ops[j]]
    decreases |ops|
  {
    var n := |ops| - 1;
    if j == n { KeptNone(ops[..n], keep); } else { KeptOne(ops[..n], keep, j); }
  }

  /** After a crash load finds absence or complete credentials, never a torn file,
      and each of these outcomes is possible. */
  lemma CrashOutcomes(d: Disk, r: Loaded)
    requires Safe(d)
    ensures MayLoad(d, r) <==> Outcome(d, r)
  {
    if MayLoad(d, r) {
      var keep: nat -> bool, lost: nat -> Content :| Load(Crash(d, keep, lost)) == r;
      OutcomeOfCrash(d, keep, lost);
    }
    if Outcome(d, r) {
      CrashTo(d, r);
    }
  }

  lemma OutcomeOfCrash(d: Disk, keep: nat -> bool, lost: nat -> Content)
    requires Safe(d)
    ensures Outcome(d, Load(Crash(d, keep, lost)))
  {
    CrashLeavesCandidate(d, keep, lost);
    var e := Crash(d, keep, lost);
    ViewIsCandidate(e);
    if CredentialsFile in View(e) {
      assert Candidate(d, View(e)[CredentialsFile]);
    }
  }

  lemma CrashTo(d: Disk, r: Loaded)
    requires Safe(d) && Outcome(d, r)
    ensures MayLoad(d, r)
  {
    if r.Absent? {
      KeepNothing(d);
    } else {
      var ino: nat :| Candidate(d, ino) && ino in d.files && d.files[ino].content.Encoded?
                      && r == Valid(d.files[ino].content.c);
      if CredentialsFile in d.durable && d.durable[CredentialsFile] == ino {
        KeepNothing(d);
      } else {
        var j: nat :| j < |d.pending| && NamesCredentials(d.pending[j], ino);
        KeepOnly(d, j, ino);
      }
    }
  }

  lemma KeepNothing(d: Disk)
    requires Safe(d)
    ensures CredentialsFile !in d.durable ==> MayLoad(d, Absent)
    ensures CredentialsFile in d.durable ==>
              Candidate(d, d.durable[CredentialsFile]) && MayLoad(d, Valid(d.files[d.durable[CredentialsFile]].content.c))
  {
    var none: nat -> bool, lost: nat -> Content := _ => false, _ => Torn("");
    KeptNone(d.pending, none);
    var e := Crash(d, none, lost);
    assert View(e) == d.durable;
    assert CredentialsFile in d.durable ==> Candidate(d, d.durable[CredentialsFile]);
    assert MayLoad(d, Load(e));
  }

  lemma KeepOnly(d: Disk, j: nat, ino: nat)
    requires Safe(d) && j < |d.pending| && NamesCredentials(d.pending[j], ino)
    ensures Candidate(d, ino) && MayLoad(d, Valid(d.files[ino].content.c))
  {
    var one: nat -> bool, lost: nat -> Content := i => i == j, _ => Torn("");
    KeptOne(d.pending, one, j);
    OneMove(d.durable, d.pending[j]);
    assert Candidate(d, ino);
    assert MayLoad(d, Load(Crash(d, one, lost)));
  }

  lemma OneMove(dir: map<Name, nat>, op: DirOp)
    requires op.Move? && op.to.CredentialsFile?
    ensures CredentialsFile in Apply(dir, [op]) && Apply(dir, [op])[CredentialsFile] == op.ino
  {
    assert Apply(dir, [op]) == ApplyOp(Apply(dir, []), op);
  }
}
