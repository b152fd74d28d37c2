/** The provisioning script in its own form: commands one after the other, on files
    that hold text. Every run is shown to be an execution of the machine, so what
    holds of the machine's executions, cut anywhere, holds of the script's runs. */
module Script {
  import opened Options
  import opened VaultModel
  import opened InitRecord
  import opened Provisioning
  import Safety
  import Transit

  /** The data volume with the files' text. */
  datatype Files = Files(record: Option<Text>, partial: Option<Text>, scrubbed: Option<Text>, pgp: bool)

  /** What the machine keeps of a text: the root token it yields, and the rest. */
  function Read(text: Text): Record {
    Record(RecordedRoot(text), Scrub(text))
  }

  function ReadFile(file: Option<Text>): Option<Record> {
    if file.Some? then Some(Read(file.value)) else None
  }

  function ReadFiles(files: Files): Volume {
    Volume(ReadFile(files.record), ReadFile(files.partial), ReadFile(files.scrubbed), files.pgp)
  }

  /** Scrubbing the text is what the machine calls dropping the root token. */
  lemma {:induction false} ScrubbedText(text: Text)
    ensures Read(Scrub(text)) == Read(text).(root := "")
  {
    ScrubbedHasNoRoot(text);
    ScrubAgainstExtract(text);
  }

  lemma EmptyText()
    ensures Read([]) == EMPTY_RECORD
  {
    ScrubAgainstExtract([]);
    NoRootExactlyWhenRootless([]);
  }

  // ------------------------------------------------------------ a run as an execution

  /** The answer to a command: what the world sends, with the file's text read. */
  function AsAnswer(e: Event, text: Text): (a: Event)
    ensures !a.Restart? && !a.Others?
  {
    if e.Restart? || e.Others? then Lost
    else if e.InitDone? || e.InitLost? then e.(response := Read(text))
    else if e.Torn? then e.(cut := Read(text))
    else e
  }

  /** The machine after the answers from `first` up to `next`. */
  function Driven(m: State, world: nat -> (Event, Text), first: nat, next: nat): State
    requires first <= next
    decreases next
  {
    if first == next then m
    else Step(Driven(m, world, first, next - 1), AsAnswer(world(next - 1).0, world(next - 1).1))
  }

  /** Driving the machine is executing it on one run's events. */
  lemma {:induction false} DrivenIsExec(m: State, world: nat -> (Event, Text), first: nat, next: nat) returns (es: seq<Event>)
    requires first <= next
    ensures Driven(m, world, first, next) == Exec(m, es) && Safety.OneRun(es) && |es| == next - first
    decreases next
  {
    hide Step, AsAnswer;
    if first == next {
      es := [];
    } else {
      var before := DrivenIsExec(m, world, first, next - 1);
      var e := AsAnswer(world(next - 1).0, world(next - 1).1);
      es := before + [e];
      ExecStep(m, before, e);
    }
  }

  lemma InitializeNotBadUsage(s: State, e: Event)
    requires Initializing(s.pc)
    ensures StepInitialize(s, e).pc != Failed(BadUsage)
  {
  }

  lemma RetireNotBadUsage(s: State, e: Event)
    requires s.pc != Failed(BadUsage)
    ensures StepRetire(s, e).pc != Failed(BadUsage)
  {
  }

  lemma MiddleNotBadUsage(s: State, e: Event)
    ensures Installing(s.pc) ==> StepInstall(s, e).pc != Failed(BadUsage)
    ensures s.pc.Kv? ==> StepKv(s, e).pc != Failed(BadUsage)
    ensures s.pc.InTransit? ==> StepTransit(s, e).pc != Failed(BadUsage)
  {
  }

  lemma NotBadUsage(s: State, e: Event)
    requires !e.Restart? && s.pc != Failed(BadUsage)
    ensures Step(s, e).pc != Failed(BadUsage)
  {
    hide StepInitialize, StepInstall, StepKv, StepTransit, StepRetire;
    if Initializing(s.pc) {
      InitializeNotBadUsage(s, e);
    } else if Installing(s.pc) || s.pc.Kv? || s.pc.InTransit? {
      MiddleNotBadUsage(s, e);
    } else {
      RetireNotBadUsage(s, e);
    }
  }

  lemma {:induction false} BadUsageOnlyAtOnce(s: State, es: seq<Event>)
    requires Safety.OneRun(es) && s.pc != Failed(BadUsage)
    ensures Exec(s, es).pc != Failed(BadUsage)
    decreases |es|
  {
    hide Step;
    if es != [] {
      assert Safety.OneRun(es[..|es| - 1]);
      BadUsageOnlyAtOnce(s, es[..|es| - 1]);
      NotBadUsage(Exec(s, es[..|es| - 1]), es[|es| - 1]);
    }
  }

  /** One run of the script over a Vault and a data volume. */
  class Run {
    /** What the world answers to each command, and the text the command leaves in
        its output file. */
    const world: nat -> (Event, Text)
    const cfg: Config

    var vault: Vault
    var files: Files
    var asked: nat

    /** The machine this run drives, and where both started. */
    ghost var m: State
    ghost const start: State
    ghost const first: nat

    ghost predicate OnPath()
      reads this
    {
      first <= asked && m == Driven(start, world, first, asked)
    }

    ghost predicate Agrees()
      reads this
    {
      m.vault == vault && m.volume == ReadFiles(files) && m.cfg == cfg
    }

    constructor (world: nat -> (Event, Text), asked: nat, cfg: Config, vault: Vault, files: Files, ghost before: State)
      requires before.vault == vault && before.volume == ReadFiles(files)
      ensures OnPath() && Agrees()
      ensures this.world == world && first == this.asked == asked && this.cfg == cfg
      ensures this.vault == vault && this.files == files
      ensures start == m == Step(before, Restart(cfg))
    {
      this.world, this.asked, this.cfg, this.vault, this.files := world, asked, cfg, vault, files;
      first := asked;
      start := Step(before, Restart(cfg));
      m := Step(before, Restart(cfg));
    }

    /** The next command is answered; the text is what its output file holds. */
    method Ask() returns (e: Event, text: Text)
      requires OnPath()
      modifies this`asked, this`m
      ensures OnPath() && m == Command(old(m), e) && !e.Restart? && !e.Others?
      ensures (e.InitDone? || e.InitLost?) ==> e.response == Read(text)
      ensures e.Torn? ==> e.cut == Read(text)
    {
      text := world(asked).1;
      e := AsAnswer(world(asked).0, text);
      asked := asked + 1;
      m := Step(m, e);
    }

    // ---------------------------------------------------------- the vault CLI

    method VaultStatus() returns (status: int, ghost e: Event)
      requires OnPath() && (m.pc.WaitSealed? || m.pc.WaitUnsealed?)
      modifies this`asked, this`m
      ensures OnPath() && m == if old(m).pc.WaitSealed? then StepWaitSealed(old(m), e) else StepWaitUnsealed(old(m), e)
      ensures status == StatusCode(vault, e)
    {
      hide Driven, AsAnswer;
      var answer, _ := Ask();
      e := answer;
      status := StatusCode(vault, answer);
    }

    method AskInitialize() returns (e: Event, text: Text)
      requires OnPath() && Initializing(m.pc)
      modifies this`asked, this`m
      ensures OnPath() && m == StepInitialize(old(m), e)
      ensures (e.InitDone? || e.InitLost?) ==> e.response == Read(text)
    {
      hide Driven, AsAnswer, Read, StepInitialize;
      e, text := Ask();
    }

    method AskInstall() returns (e: Event)
      requires OnPath() && Installing(m.pc)
      modifies this`asked, this`m
      ensures OnPath() && m == StepInstall(old(m), e)
    {
      hide Driven, AsAnswer, Read, StepInstall;
      var answer, _ := Ask();
      e := answer;
    }

    method AskKv() returns (e: Event)
      requires OnPath() && m.pc.Kv?
      modifies this`asked, this`m
      ensures OnPath() && m == StepKv(old(m), e)
    {
      hide Driven, AsAnswer, Read, StepKv;
      var answer, _ := Ask();
      e := answer;
    }

    method AskTransit() returns (e: Event)
      requires OnPath() && m.pc.InTransit?
      modifies this`asked, this`m
      ensures OnPath() && m == StepTransit(old(m), e)
    {
      hide Driven, AsAnswer, Read, StepTransit;
      var answer, _ := Ask();
      e := answer;
    }

    method AskRetire() returns (e: Event, text: Text)
      requires OnPath() && Safety.Retiring(m.pc)
      modifies this`asked, this`m
      ensures OnPath() && m == StepRetire(old(m), e)
      ensures e.Torn? ==> e.cut == Read(text)
    {
      hide Driven, AsAnswer, Read, StepRetire;
      e, text := Ask();
    }

    // ---------------------------------------------------------- the script's functions

    method WaitForServer(sealed: bool) returns (ok: bool)
      requires OnPath() && Agrees() && m.pc == if sealed then WaitSealed(0) else WaitUnsealed(0)
      modifies this`asked, this`m
      ensures OnPath() && Agrees()
      ensures !ok ==> m == old(m).(pc := Failed(NotReady))
      ensures ok && sealed ==> m == old(m).(pc := ReadInit)
      ensures ok && !sealed ==> m == old(m).(pc := if cfg.mode == "durable" then LookupAccess else InTransit(Transit.ReadMount))
    {
      hide Driven, Read;
      var attempt := 0;
      while true
        invariant OnPath() && Agrees()
        invariant m == old(m).(pc := if sealed then WaitSealed(attempt) else WaitUnsealed(attempt))
        decreases cfg.attempts - attempt
      {
        var status, _ := VaultStatus();
        if status == 0 {
          return true;
        }
        if status == 2 && sealed {
          return true;
        }
        attempt := attempt + 1;
        if attempt >= cfg.attempts {
          return false;
        }
      }
    }

    method Initialize() returns (ok: bool)
      requires OnPath() && Agrees() && m.pc.ReadInit?
      modifies this`asked, this`m, this`vault, this`files
      ensures OnPath() && Agrees()
      ensures if ok then m.pc == WaitUnsealed(0) else m.pc.Failed?
    {
      EmptyText();
      hide Driven, Read;
      var e, text := AskInitialize();
      if !e.Ok? {
        return false;
      }
      if vault.Initialized() {
        return true;
      }
      if files.record.Some? {
        return false;
      }
      e, text := AskInitialize();
      if !e.Ok? {
        return false;
      }
      if cfg.pgp {
        files := files.(pgp := true);
      }
      e, text := AskInitialize();
      if !e.Ok? {
        return false;
      }
      files := files.(partial := Some([]));
      ok := OperatorInitAndPublish();
    }

    method OperatorInitAndPublish() returns (ok: bool)
      requires OnPath() && Agrees() && m.pc.OperatorInit? && !vault.Initialized() && files.partial.Some?
      modifies this`asked, this`m, this`vault, this`files
      ensures OnPath() && Agrees()
      ensures if ok then m.pc == WaitUnsealed(0) else m.pc.Failed?
      ensures ok ==> vault.Initialized() && files.record.Some? && files.partial.None?
    {
      hide Driven, Read;
      var e, text := AskInitialize();
      if e.InitDone? || e.InitLost? {
        vault := VaultModel.Initialize(vault, e.root);
        files := files.(partial := Some(text));
      }
      if !e.InitDone? {
        return false;
      }
      e, text := AskInitialize();
      if !e.Ok? {
        return false;
      }
      files := files.(record := files.partial, partial := None);
      e, text := AskInitialize();
      if !e.Ok? {
        return false;
      }
      files := files.(pgp := false);
      return true;
    }

    /** root="$(recorded_root)": the token the record's text yields. */
    function RecordedRootHere(): string
      reads this
    {
      if files.record.Some? then RecordedRoot(files.record.value) else ""
    }

    method InstallAccessToken() returns (ok: bool)
      requires OnPath() && Agrees() && m.pc.LookupAccess?
      modifies this`asked, this`m, this`vault
      ensures OnPath() && Agrees()
      ensures if ok then m.pc == Kv(ReadKv) && vault.Allows(cfg.token) else m.pc.Failed?
    {
      hide Driven, RecordedRoot, Scrub;
      var e := AskInstall();
      var found := LookupSucceeds(vault, cfg.token, e);
      if found {
        return true;
      }
      var root := RecordedRootHere();
      e := AskInstall();
      if !e.Ok? || root == "" {
        return false;
      }
      e := AskInstall();
      if e.Ok? {
        vault := CreateOrphan(vault, root, cfg.token);
      }
      e := AskInstall();
      return LookupSucceeds(vault, cfg.token, e);
    }

    /** vault read -field=type (or options) of a mount. */
    function ReadMount(path: string, e: Event): Option<Mount>
      reads this
    {
      if Transit.MountReadable(vault, cfg.token, path, Answer(e)) then Some(vault.mounts[path]) else None
    }

    method ProvisionKv() returns (ok: bool)
      requires OnPath() && Agrees() && m.pc == Kv(ReadKv)
      modifies this`asked, this`m, this`vault
      ensures OnPath() && Agrees()
      ensures if ok then m.pc == InTransit(Transit.ReadMount) && SECRET in vault.mounts && vault.mounts[SECRET] == KV2
              else m.pc.Failed?
    {
      hide Driven, Read;
      var e := AskKv();
      var mount := ReadMount(SECRET, e);
      if mount.None? {
        e := AskKv();
        if e.Ok? {
          vault := EnableMount(vault, cfg.token, SECRET, KV2);
        }
        e := AskKv();
        mount := ReadMount(SECRET, e);
        if mount.None? {
          return false;
        }
      }
      if mount.value.kind != "kv" {
        return false;
      }
      e := AskKv();
      mount := ReadMount(SECRET, e);
      return mount.Some? && mount.value.version2;
    }

    function ReadKey(e: Event): bool
      reads this
    {
      Transit.KeyReadable(vault, cfg.token, cfg.key, Answer(e))
    }

    method ProvisionTransit() returns (ok: bool)
      requires OnPath() && Agrees() && m.pc == InTransit(Transit.ReadMount)
      modifies this`asked, this`m, this`vault
      ensures OnPath() && Agrees()
      ensures if ok then m.pc == AfterTransit(m) && vault.Mounted(TRANSIT, "transit") && cfg.key in vault.keys
              else m.pc.Failed?
      ensures KeysKept(old(vault), vault) && MountsKept(old(vault), vault)
    {
      hide Driven, Read, StepTransit;
      ok := ProvisionEngine();
      if ok {
        ok := ProvisionKey();
      }
    }

    method ProvisionEngine() returns (ok: bool)
      requires OnPath() && Agrees() && m.pc == InTransit(Transit.ReadMount)
      modifies this`asked, this`m, this`vault
      ensures OnPath() && Agrees()
      ensures if ok then m.pc == InTransit(Transit.ReadKey) && vault.Mounted(TRANSIT, "transit") else m.pc.Failed?
      ensures vault.keys == old(vault).keys && MountsKept(old(vault), vault)
    {
      hide Driven, Read;
      var e := AskTransit();
      var mount := ReadMount(TRANSIT, e);
      if mount.None? {
        mount := EnableEngine();
        if mount.None? {
          return false;
        }
      }
      return mount.value.kind == "transit";
    }

    method EnableEngine() returns (mount: Option<Mount>)
      requires OnPath() && Agrees() && m.pc == InTransit(Transit.EnableEngine)
      modifies this`asked, this`m, this`vault
      ensures OnPath() && Agrees()
      ensures mount.None? ==> m.pc.Failed?
      ensures mount.Some? ==> TRANSIT in vault.mounts && vault.mounts[TRANSIT] == mount.value
      ensures mount.Some? ==> if mount.value.kind == "transit" then m.pc == InTransit(Transit.ReadKey) else m.pc.Failed?
      ensures vault.keys == old(vault).keys && MountsKept(old(vault), vault)
    {
      hide Driven, Read;
      var e := AskTransit();
      if e.Ok? {
        vault := EnableMount(vault, cfg.token, TRANSIT, TRANSIT_ENGINE);
      }
      e := AskTransit();
      mount := ReadMount(TRANSIT, e);
    }

    method ProvisionKey() returns (ok: bool)
      requires OnPath() && Agrees() && m.pc == InTransit(Transit.ReadKey) && vault.Mounted(TRANSIT, "transit")
      modifies this`asked, this`m, this`vault
      ensures OnPath() && Agrees()
      ensures if ok then m.pc == AfterTransit(m) && cfg.key in vault.keys else m.pc.Failed?
      ensures KeysKept(old(vault), vault) && vault.mounts == old(vault).mounts
    {
      hide Driven, Read;
      var e := AskTransit();
      var found := ReadKey(e);
      if !found {
        e := AskTransit();
        if e.Ok? {
          vault := CreateKey(vault, cfg.token, cfg.key, KEY_TYPE);
        }
        e := AskTransit();
        found := ReadKey(e);
      }
      return found;
    }

    method RetireInitialRoot() returns (ok: bool)
      requires OnPath() && Agrees() && m.pc.ReadRootAgain?
      modifies this`asked, this`m, this`vault, this`files
      ensures OnPath() && Agrees()
      ensures if ok then m.pc.Done? else m.pc.Failed?
      ensures ok && files != old(files) ==>
                old(files).record.Some? && files.record == Some(Scrub(old(files).record.value))
    {
      hide Driven, RecordedRoot, Scrub;
      var root := RecordedRootHere();
      var e, text := AskRetire();
      if !e.Ok? {
        return false;
      }
      if root == "" {
        return true;
      }
      e, text := AskRetire();
      if e.Ok? && vault.Allows(root) {
        vault := RevokeSelf(vault, root);
      }
      e, text := AskRetire();
      if LookupSucceeds(vault, root, e) {
        return false;
      }
      ok := ScrubRecord();
    }

    method ScrubRecord() returns (ok: bool)
      requires OnPath() && Agrees() && m.pc.WriteScrubbed?
      modifies this`asked, this`m, this`files
      ensures OnPath() && Agrees()
      ensures if ok then m.pc.Done? else m.pc.Failed?
      ensures ok ==> old(files).record.Some? && files.record == Some(Scrub(old(files).record.value))
    {
      hide Driven, Read, RecordedRoot, Scrub;
      if files.record.Some? {
        ScrubbedText(files.record.value);
      }
      var e, text := AskRetire();
      if e.Torn? {
        files := files.(scrubbed := Some(text));
      }
      if !e.Ok? || files.record.None? {
        return false;
      }
      files := files.(scrubbed := Some(Scrub(files.record.value)));
      e, text := AskRetire();
      if !e.Ok? {
        return false;
      }
      files := files.(record := files.scrubbed, scrubbed := None);
      return true;
    }

    /** The script from the top, and its exit code. */
    method Provision() returns (code: int)
      requires OnPath() && Agrees() && m.pc == Start(cfg) && asked == first
      modifies this`asked, this`m, this`vault, this`files
      ensures OnPath() && Agrees()
      ensures code == 0 || code == 1 || code == 64
      ensures code == 0 <==> m.pc.Done?
      ensures code != 0 ==> m.pc.Failed? && (code == 64 <==> m.pc == Failed(BadUsage))
    {
      hide Driven, Read;
      if !Usable(cfg) {
        return 64;
      }
      AtTheTop();
      var ok := Work();
      ghost var es := DrivenIsExec(start, world, first, asked);
      BadUsageOnlyAtOnce(start, es);
      code := if ok then 0 else 1;
    }

    lemma AtTheTop()
      requires OnPath() && asked == first
      ensures m == start
    {
    }

    /** The script behind its argument checks. */
    method Work() returns (ok: bool)
      requires OnPath() && Agrees() && m.pc == Start(cfg) && Usable(cfg)
      modifies this`asked, this`m, this`vault, this`files
      ensures OnPath() && Agrees()
      ensures if ok then m.pc.Done? else m.pc.Failed?
    {
      hide Driven, Read;
      if cfg.mode == "durable" {
        ok := WaitForServer(true);
        if !ok { return; }
        ok := Initialize();
        if !ok { return; }
        ok := WaitForServer(false);
        if !ok { return; }
        ok := InstallAccessToken();
        if !ok { return; }
        ok := ProvisionKv();
        if !ok { return; }
        ok := ProvisionTransit();
        if !ok { return; }
        ok := RetireInitialRoot();
      } else {
        ok := WaitForServer(false);
        if !ok { return; }
        ok := ProvisionTransit();
      }
    }
  }
}
