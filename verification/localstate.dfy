/** load, save and bootstrap of localstate.go in their own form: requests and file
    operations one after the other. Every call is shown to drive the machine of
    module Bootstrap, so it keeps what every history of that machine keeps. */
module LocalState {
  import opened Options
  import opened VaultModel
  import opened Storage
  import opened Bootstrap
  import Custody

  predicate IsAnswer(e: Event) {
    !e.Restart? && !e.PowerLoss?
  }

  function AsAnswer(e: Event): (a: Event)
    ensures IsAnswer(a)
  {
    if IsAnswer(e) then e else Fails
  }

  /** The machine after the answers from `first` up to `next`. */
  function Driven(m: State, world: nat -> Event, first: nat, next: nat): State
    requires first <= next
    decreases next
  {
    if first == next then m else Step(Driven(m, world, first, next - 1), AsAnswer(world(next - 1)))
  }

  lemma {:induction false} DrivenIsExec(m: State, world: nat -> Event, first: nat, next: nat) returns (es: seq<Event>)
    requires first <= next
    ensures Driven(m, world, first, next) == Exec(m, es) && |es| == next - first
    ensures forall i | 0 <= i < |es| :: IsAnswer(es[i])
    decreases next
  {
    hide Step;
    if first == next {
      es := [];
    } else {
      var before := DrivenIsExec(m, world, first, next - 1);
      es := before + [AsAnswer(world(next - 1))];
      assert es[..|before|] == before;
    }
  }

  class LocalVaultState {
    const world: nat -> Event
    var asked: nat
    var vault: Vault
    var sealed: bool
    var barrier: string
    var disk: Disk

    ghost var m: State
    ghost const start: State
    ghost const first: nat

    ghost predicate OnPath()
      reads this
    {
      first <= asked && m == Driven(start, world, first, asked)
    }

    ghost predicate Agrees()
      reads this
    {
      m.vault == vault && m.sealed == sealed && m.barrier == barrier && m.disk == disk
    }

    /** A new agent process over what `before` left, its server sealed or not. */
    constructor (world: nat -> Event, asked: nat, preferred: Token, reseal: bool, before: State)
      ensures OnPath() && Agrees()
      ensures this.world == world && first == this.asked == asked
      ensures start == m == Step(before, Restart(preferred, reseal))
    {
      this.world, this.asked := world, asked;
      first := asked;
      vault, sealed, barrier, disk := before.vault, before.sealed || reseal, before.barrier, before.disk;
      start := Step(before, Restart(preferred, reseal));
      m := Step(before, Restart(preferred, reseal));
    }

    method Ask() returns (e: Event)
      requires OnPath()
      modifies this`asked, this`m
      ensures OnPath() && IsAnswer(e) && m == Answered(old(m), e)
      ensures e == AsAnswer(world(old(asked))) && asked == old(asked) + 1
    {
      e := AsAnswer(world(asked));
      asked := asked + 1;
      m := Step(m, e);
    }

    method AskRequest() returns (e: Event)
      requires OnPath() && !m.pc.LoadCustody? && !m.pc.GetInit? && !m.pc.PostInit? && !m.pc.Saving?
      modifies this`asked, this`m
      ensures OnPath() && IsAnswer(e) && m == StepRequest(old(m), e)
    {
      hide Driven, StepRequest;
      e := Ask();
    }

    /** load: a missing file is no custody; a file that does not hold complete
        credentials is an error, and so is a read that fails. */
    method Load() returns (ok: bool, custody: Option<Credentials>, ghost e: Event)
      requires OnPath() && Agrees() && m.pc.LoadCustody?
      modifies this`asked, this`m
      ensures OnPath() && Agrees()
      ensures if ok then m == old(m).(pc := GetInit(0, custody)) else m == old(m).(pc := Failed)
      ensures ok && custody.None? <==> e.Ok? && CredentialsFile !in View(disk)
      ensures ok && custody.Some? <==> e.Ok? && exists c :: HoldsInFull(disk, c)
      ensures ok && custody.Some? ==> HoldsInFull(disk, custody.value)
    {
      hide Driven;
      var answer := Ask();
      e := answer;
      LoadSays(disk);
      if !answer.Ok? {
        return false, None, answer;
      }
      match Storage.Load(disk) {
        case Absent => return true, None, answer;
        case Valid(c) => return true, Some(c), answer;
        case Invalid => return false, None, answer;
      }
    }

    /** The machine saves along: from `before`, with the file operations `ios` made so
        far on the disk as it was, it stands where save stands. */
    ghost predicate Saves(before: State, ios: seq<Custody.Io>, save: Custody.Pc)
      reads this
    {
      && OnPath() && before.pc.Saving? && before.pc.save.CreateTemp?
      && Custody.Exec(before.disk, before.c, ios) == (disk, save)
      && m == before.(disk := disk, pc := AfterSave(before.pc.first, save))
    }

    /** The next file operation of save, and what it leaves of the disk and of save. */
    method AskSave(ghost before: State, ghost ios: seq<Custody.Io>, ghost save: Custody.Pc)
      returns (io: Custody.Io, ghost next: seq<Custody.Io>)
      requires Saves(before, ios, save) && !save.Finished()
      modifies this`asked, this`m
      ensures OnPath() && next == ios + [io]
      ensures var (d, pc) := Custody.Step(disk, save, before.c, io);
              && Custody.Exec(before.disk, before.c, next) == (d, pc)
              && m == before.(disk := d, pc := AfterSave(before.pc.first, pc))
    {
      hide Driven, Custody.Step, Custody.Exec;
      var e := Ask();
      io := AsIo(e);
      next := ios + [io];
      Custody.ExecStep(before.disk, before.c, ios, io);
    }

    /** save: through a temporary file, fsync, rename and a directory fsync. */
    method Save(c: Credentials) returns (ok: bool, ghost ios: seq<Custody.Io>)
      requires OnPath() && Agrees() && m.pc.Saving? && m.pc.save.CreateTemp? && m.c == c
      modifies this`asked, this`m, this`disk
      ensures Saves(old(m), ios, if ok then Custody.Saved else Custody.NotSaved)
    {
      hide Driven, Custody.Exec;
      ghost var before := m;
      Custody.NothingYet(disk, c);
      var io: Custody.Io;
      io, ios := AskSave(before, [], Custody.CreateTemp);
      if !io.Works? {
        return false, ios;
      }
      var ino := disk.next;
      disk := Storage.CreateTemp(disk);
      io, ios := AskSave(before, ios, Custody.WriteTemp(ino));
      var failed := !io.Works?;
      if io.Works? {
        disk := Write(disk, ino, Encoded(c));
        io, ios := AskSave(before, ios, Custody.SyncTemp(ino));
        failed := !io.Works?;
        if io.Works? {
          disk := SyncFile(disk, ino);
        }
      } else if io.Partly? {
        disk := Write(disk, ino, Torn(io.raw));
      }
      ok, ios := CloseAndPublish(before, ios, ino, failed);
    }

    method CloseAndPublish(ghost before: State, ghost sofar: seq<Custody.Io>, ino: nat, failed: bool)
      returns (ok: bool, ghost ios: seq<Custody.Io>)
      requires Saves(before, sofar, Custody.CloseTemp(ino, failed))
      modifies this`asked, this`m, this`disk
      ensures Saves(before, ios, if ok then Custody.Saved else Custody.NotSaved)
    {
      hide Driven, Custody.Exec;
      var io: Custody.Io;
      io, ios := AskSave(before, sofar, Custody.CloseTemp(ino, failed));
      if failed || !io.Works? {
        disk := Remove(disk, Temp(ino));
        return false, ios;
      }
      io, ios := AskSave(before, ios, Custody.RenameTemp(ino));
      if !io.Works? {
        disk := Remove(disk, Temp(ino));
        return false, ios;
      }
      disk := Rename(disk, ino);
      io, ios := AskSave(before, ios, Custody.OpenDir);
      if !io.Works? {
        return false, ios;
      }
      io, ios := AskSave(before, ios, Custody.SyncDir);
      if !io.Works? {
        return false, ios;
      }
      disk := SyncDirectory(disk);
      return true, ios;
    }

    /** GET sys/init, up to thirty times: the first answer or a cancellation ends it. */
    method WaitForInit() returns (ok: bool, initialized: bool)
      requires OnPath() && Agrees() && m.pc.GetInit? && m.pc.attempt == 0
      modifies this`asked, this`m
      ensures OnPath() && Agrees()
      ensures if !ok then m == old(m).(pc := Failed)
              else initialized == vault.Initialized() && exists n: nat, e: Event ::
                     e.Ok? && m == StepGetInit(old(m).(pc := GetInit(n, old(m).pc.custody)), e)
      ensures old(asked) < asked <= old(asked) + 30
      ensures forall i: nat | old(asked) <= i < asked - 1 :: !AsAnswer(world(i)).Ok? && !AsAnswer(world(i)).Cancelled?
      ensures ok <==> AsAnswer(world(asked - 1)).Ok?
      ensures !ok ==> asked == old(asked) + 30 || AsAnswer(world(asked - 1)).Cancelled?
    {
      hide Driven, AsAnswer;
      ghost var custody := m.pc.custody;
      for i := 0 to ATTEMPTS
        invariant OnPath() && Agrees() && asked == old(asked) + i
        invariant m == old(m).(pc := if i < ATTEMPTS then GetInit(i, custody) else Failed)
        invariant forall k: nat | old(asked) <= k < asked :: !AsAnswer(world(k)).Ok? && !AsAnswer(world(k)).Cancelled?
      {
        var e := Ask();
        if e.Ok? {
          assert m == StepGetInit(old(m).(pc := GetInit(i, custody)), e);
          return true, vault.Initialized();
        }
        if e.Cancelled? {
          return false, false;
        }
      }
      return false, false;
    }

    method PostInit() returns (ok: bool, c: Credentials)
      requires OnPath() && Agrees() && m.pc.PostInit? && !vault.Initialized()
      modifies this`asked, this`m, this`vault, this`sealed, this`barrier
      ensures OnPath() && Agrees()
      ensures if ok then m.pc == Saving(true, Custody.CreateTemp) && m.c == c else m.pc.Failed?
      ensures m.preferred == old(m).preferred
    {
      hide Driven;
      c := Credentials("", "", "");
      var e := Ask();
      if e.InitDone? || e.InitLost? {
        vault := Initialize(vault, e.root);
        barrier, sealed := e.key, true;
      }
      if !e.InitDone? {
        return false, c;
      }
      return true, Credentials(e.root, e.key, e.root);
    }

    /** Unseal, and KV v2 at secret/. */
    method UnsealAndMount(c: Credentials) returns (ok: bool)
      requires OnPath() && Agrees() && m.pc.Unseal? && m.c == c
      modifies this`asked, this`m, this`vault, this`sealed
      ensures OnPath() && Agrees() && m.c == c && m.preferred == old(m).preferred
      ensures if ok then m.pc == AfterMounts(m) && !sealed && KvMounted(m) else m.pc.Failed?
    {
      hide Driven;
      var e := AskRequest();
      if (e.Ok? || e.Lost?) && vault.Initialized() && c.unseal == barrier {
        sealed := false;
        if !e.Ok? {
          return false;
        }
      } else {
        return false;
      }
      ok := MountKv(c);
    }

    method MountKv(c: Credentials) returns (ok: bool)
      requires OnPath() && Agrees() && m.pc.GetMounts? && m.c == c && !sealed
      modifies this`asked, this`m, this`vault
      ensures OnPath() && Agrees() && m.c == c && m.preferred == old(m).preferred
      ensures if ok then m.pc == AfterMounts(m) && KvMounted(m) else m.pc.Failed?
      ensures SECRET in old(vault).mounts ==> vault == old(vault)
    {
      hide Driven;
      var e := AskRequest();
      if !e.Ok? || !vault.Allows(c.root) {
        return false;
      }
      if SECRET in vault.mounts {
        return vault.mounts[SECRET] == KV2;
      }
      e := AskRequest();
      if e.Ok? || e.Lost? {
        vault := EnableMount(vault, c.root, SECRET, KV2);
      }
      return e.Ok?;
    }

    method InstallPreferred(c: Credentials, preferred: Token) returns (ok: bool, d: Credentials)
      requires OnPath() && Agrees() && m.pc.PostOrphan? && m.c == c && m.preferred == preferred && !sealed
      modifies this`asked, this`m, this`vault, this`disk
      ensures OnPath() && Agrees() && d == c.(access := preferred) && m.preferred == preferred
      ensures if ok then m.pc.LookupSelf? && m.c == d && !sealed else m.pc.Failed?
    {
      hide Driven;
      d := c.(access := preferred);
      var e := AskRequest();
      if (e.Ok? || e.Lost?) && vault.Allows(c.root) {
        vault := CreateOrphan(vault, c.root, preferred);
        if e.Ok? {
          var saved, ios := Save(d);
          return saved, d;
        }
      }
      return false, d;
    }

    /** bootstrap: the token to publish, or nothing. */
    method Bootstrap(preferred: Token) returns (token: Option<Token>)
      requires OnPath() && Agrees() && m.pc.LoadCustody? && m.preferred == preferred
      modifies this`asked, this`m, this`vault, this`sealed, this`barrier, this`disk
      ensures OnPath() && Agrees()
      ensures m.pc == if token.Some? then Done(token.value) else Failed
    {
      hide Driven;
      var ok, custody, read := Load();
      if !ok {
        return None;
      }
      var initialized: bool;
      ok, initialized := WaitForInit();
      if !ok || initialized != custody.Some? {
        return None;
      }
      var c: Credentials;
      if custody.Some? {
        c := custody.value;
      } else {
        ok, c := PostInit();
        if !ok {
          return None;
        }
        var saved, ios := Save(c);
        if !saved {
          return None;
        }
      }
      ok := UnsealAndMount(c);
      if !ok {
        return None;
      }
      if preferred != "" && preferred != c.access {
        ok, c := InstallPreferred(c, preferred);
        if !ok {
          return None;
        }
      }
      token := LookupSelf(c);
    }

    method LookupSelf(c: Credentials) returns (token: Option<Token>)
      requires OnPath() && Agrees() && m.pc.LookupSelf? && m.c == c && !sealed
      modifies this`asked, this`m
      ensures OnPath() && Agrees()
      ensures m.pc == if token.Some? then Done(token.value) else Failed
      ensures token.Some? ==> token.value == Published(c) && vault.Allows(token.value)
    {
      hide Driven;
      var access := if c.access == "" then c.root else c.access;
      var e := AskRequest();
      return if e.Ok? && vault.Allows(access) then Some(access) else None;
    }
  }
}
