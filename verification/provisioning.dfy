/** provision/provision.sh as a machine: one step per command, over Vault's storage
    and the data volume. Every run can be cut at any step; the next container start
    begins again at the top with both stores as they were left. */
module Provisioning {
  import opened Options
  import opened VaultModel
  import Transit

  /** An init response as the script sees it: the root token recorded_root prints,
      empty if there is none, and the text without it. Module Script ties this to
      the text itself. */
  datatype Record = Record(root: string, rest: seq<string>)

  const EMPTY_RECORD := Record("", [])

  /** The data volume's bootstrap directory: init.json, init.json.partial,
      init.json.scrubbed, and whether recovery.pgp is there. */
  datatype Volume = Volume(
    record: Option<Record>,
    partial: Option<Record>,
    scrubbed: Option<Record>,
    pgp: bool)

  const EMPTY_VOLUME := Volume(None, None, None, false)

  /** A run's arguments and environment. */
  datatype Config = Config(mode: string, key: string, token: Token, attempts: int, pgp: bool)

  predicate TokenCharacter(c: char) {
    'A' <= c <= 'Z' || 'a' <= c <= 'z' || '0' <= c <= '9' || c == '.' || c == '_' || c == '-'
  }

  predicate Usable(cfg: Config) {
    && cfg.key != ""
    && (cfg.mode == "dev" || cfg.mode == "durable")
    && cfg.token != ""
    && forall i | 0 <= i < |cfg.token| :: TokenCharacter(cfg.token[i])
  }

  datatype Reason =
    | BadUsage | NotReady | InitUnreadable | RecordWithoutStorage | InitFailed
    | NoRootLeft | ResponseNeverRecorded | CannotInstall
    | KvFailed | TransitFailed | RootNotRevoked | CommandFailed

  datatype KvPc = ReadKv | EnableKv | RereadKv | ReadOptions

  datatype Pc =
    | Stopped
    | WaitSealed(attempt: int) | ReadInit | StagePgp | OpenPartial | OperatorInit | Publish | RemovePgp
    | WaitUnsealed(attempt: int)
    | LookupAccess | ReadRoot | Install(root: Token) | LookupInstalled
    | Kv(kv: KvPc) | InTransit(transit: Transit.Pc)
    | ReadRootAgain | Revoke(root: Token) | LookupRoot(root: Token) | WriteScrubbed | PublishScrubbed
    | Done | Failed(reason: Reason)
  {
    predicate Terminal() { Stopped? || Done? || Failed? }
  }

  /** `seen` holds every access token a run has positively looked up. */
  datatype State = State(vault: Vault, volume: Volume, cfg: Config, pc: Pc, seen: set<Token>)

  /** What the world answers to the next command.
      Ok: it does its work and says so. Lost: it fails without effect. Sealed: vault
      status finds the server sealed. InitDone / InitLost: the server initializes and
      the response is recorded whole / not. Torn: an output file is cut short.
      Restart: a container start, at any point. Others: somebody with a live token
      other than the initial root grows the Vault. */
  datatype Event =
    | Ok | Lost | Sealed
    | InitDone(root: Token, response: Record) | InitLost(root: Token, response: Record)
    | Torn(cut: Record)
    | Restart(cfg: Config)
    | Others(auth: Token, vault: Vault)

  function Start(cfg: Config): Pc {
    if !Usable(cfg) then Failed(BadUsage)
    else if cfg.mode == "durable" then WaitSealed(0)
    else WaitUnsealed(0)
  }

  function Answer(e: Event): Transit.Answer {
    if e.Ok? then Transit.Answered else Transit.Lost
  }

  /** What recorded_root prints; nothing when init.json is absent. */
  function Root(volume: Volume): string {
    if volume.record.Some? then volume.record.value.root else ""
  }

  // ------------------------------------------------------------ wait_for_server

  function Retry(s: State, attempt: int, again: Pc): State {
    s.(pc := if attempt + 1 >= s.cfg.attempts then Failed(NotReady) else again)
  }

  /** vault status exits 0 when unsealed, 2 when sealed or uninitialized, 1 when it
      cannot answer. */
  function StatusCode(v: Vault, e: Event): int {
    if e.Ok? then (if v.Initialized() then 0 else 2) else if e.Sealed? then 2 else 1
  }

  function StepWaitSealed(s: State, e: Event): (t: State)
    requires s.pc.WaitSealed?
    ensures t.vault == s.vault && t.volume == s.volume && t.cfg == s.cfg && t.seen == s.seen
  {
    if StatusCode(s.vault, e) == 1 then Retry(s, s.pc.attempt, WaitSealed(s.pc.attempt + 1))
    else s.(pc := ReadInit)
  }

  function StepWaitUnsealed(s: State, e: Event): (t: State)
    requires s.pc.WaitUnsealed?
    ensures t.vault == s.vault && t.volume == s.volume && t.cfg == s.cfg && t.seen == s.seen
  {
    if StatusCode(s.vault, e) != 0 then Retry(s, s.pc.attempt, WaitUnsealed(s.pc.attempt + 1))
    else s.(pc := if s.cfg.mode == "durable" then LookupAccess else InTransit(Transit.ReadMount))
  }

  // ------------------------------------------------------------ initialize

  function StepInitialize(s: State, e: Event): (t: State)
    ensures t.cfg == s.cfg && t.seen == s.seen
    ensures t.vault.mounts == s.vault.mounts && t.vault.keys == s.vault.keys
  {
    match s.pc
    case ReadInit =>
      if !e.Ok? then s.(pc := Failed(InitUnreadable))
      else if s.vault.Initialized() then s.(pc := WaitUnsealed(0))
      else if s.volume.record.Some? then s.(pc := Failed(RecordWithoutStorage))
      else s.(pc := StagePgp)
    case StagePgp =>
      if !e.Ok? then s.(pc := Failed(CommandFailed))
      else s.(pc := OpenPartial, volume := if s.cfg.pgp then s.volume.(pgp := true) else s.volume)
    case OpenPartial =>
      if !e.Ok? then s.(pc := Failed(InitFailed))
      else s.(pc := OperatorInit, volume := s.volume.(partial := Some(EMPTY_RECORD)))
    case OperatorInit =>
      if !(e.InitDone? || e.InitLost?) || s.vault.Initialized() then s.(pc := Failed(InitFailed))
      else s.(pc := if e.InitDone? then Publish else Failed(InitFailed),
              vault := Initialize(s.vault, e.root),
              volume := s.volume.(partial := Some(e.response)))
    case Publish =>
      if !e.Ok? || s.volume.partial.None? then s.(pc := Failed(CommandFailed))
      else s.(pc := RemovePgp, volume := s.volume.(record := s.volume.partial, partial := None))
    case RemovePgp =>
      if !e.Ok? then s.(pc := Failed(CommandFailed))
      else s.(pc := WaitUnsealed(0), volume := s.volume.(pgp := false))
    case _ => s
  }

  // ------------------------------------------------------------ install_access_token

  predicate LookupSucceeds(v: Vault, token: Token, e: Event) {
    e.Ok? && v.Allows(token)
  }

  function StepInstall(s: State, e: Event): (t: State)
    ensures t.volume == s.volume && t.cfg == s.cfg && s.seen <= t.seen <= s.seen + {s.cfg.token}
    ensures t.vault.mounts == s.vault.mounts && t.vault.keys == s.vault.keys
  {
    match s.pc
    case LookupAccess =>
      if LookupSucceeds(s.vault, s.cfg.token, e) then s.(pc := Kv(ReadKv), seen := s.seen + {s.cfg.token})
      else s.(pc := ReadRoot)
    case ReadRoot =>
      if !e.Ok? then s.(pc := Failed(CommandFailed))
      else if Root(s.volume) != "" then s.(pc := Install(Root(s.volume)))
      else s.(pc := Failed(if s.volume.partial.Some? then ResponseNeverRecorded else NoRootLeft))
    case Install(root) =>
      s.(pc := LookupInstalled, vault := if e.Ok? then CreateOrphan(s.vault, root, s.cfg.token) else s.vault)
    case LookupInstalled =>
      if LookupSucceeds(s.vault, s.cfg.token, e) then s.(pc := Kv(ReadKv), seen := s.seen + {s.cfg.token})
      else s.(pc := Failed(CannotInstall))
    case _ => s
  }

  // ------------------------------------------------------------ provision_kv

  predicate KvReadable(s: State, e: Event) {
    Transit.MountReadable(s.vault, s.cfg.token, SECRET, Answer(e))
  }

  function CheckKv(s: State): State
    requires SECRET in s.vault.mounts
  {
    s.(pc := if s.vault.mounts[SECRET].kind == "kv" then Kv(ReadOptions) else Failed(KvFailed))
  }

  function StepKv(s: State, e: Event): (t: State)
    requires s.pc.Kv?
    ensures t.volume == s.volume && t.cfg == s.cfg && t.seen == s.seen
    ensures t.vault.live == s.vault.live && t.vault.issued == s.vault.issued && t.vault.keys == s.vault.keys
  {
    match s.pc.kv
    case ReadKv => if KvReadable(s, e) then CheckKv(s) else s.(pc := Kv(EnableKv))
    case EnableKv =>
      s.(pc := Kv(RereadKv), vault := if e.Ok? then EnableMount(s.vault, s.cfg.token, SECRET, KV2) else s.vault)
    case RereadKv => if KvReadable(s, e) then CheckKv(s) else s.(pc := Failed(KvFailed))
    case ReadOptions =>
      if KvReadable(s, e) && s.vault.mounts[SECRET].version2 then s.(pc := InTransit(Transit.ReadMount))
      else s.(pc := Failed(KvFailed))
  }

  // ------------------------------------------------------------ provision_transit

  function AfterTransit(s: State): Pc {
    if s.cfg.mode == "durable" then ReadRootAgain else Done
  }

  function StepTransit(s: State, e: Event): (t: State)
    requires s.pc.InTransit?
    ensures t.volume == s.volume && t.cfg == s.cfg && t.seen == s.seen
    ensures t.vault.live == s.vault.live && t.vault.issued == s.vault.issued
  {
    var (v, t) := Transit.Step(s.cfg.token, s.cfg.key, s.vault, s.pc.transit, Answer(e));
    s.(vault := v, pc := if t.Ready? then AfterTransit(s) else if t.Finished() then Failed(TransitFailed) else InTransit(t))
  }

  // ------------------------------------------------------------ retire_initial_root

  function StepRetire(s: State, e: Event): (t: State)
    ensures t.cfg == s.cfg && t.seen == s.seen && t.vault.issued == s.vault.issued
    ensures t.vault.mounts == s.vault.mounts && t.vault.keys == s.vault.keys
  {
    match s.pc
    case ReadRootAgain =>
      if !e.Ok? then s.(pc := Failed(CommandFailed))
      else s.(pc := if Root(s.volume) == "" then Done else Revoke(Root(s.volume)))
    case Revoke(root) =>
      s.(pc := LookupRoot(root), vault := if e.Ok? && s.vault.Allows(root) then RevokeSelf(s.vault, root) else s.vault)
    case LookupRoot(root) =>
      s.(pc := if LookupSucceeds(s.vault, root, e) then Failed(RootNotRevoked) else WriteScrubbed)
    case WriteScrubbed =>
      if e.Torn? then s.(pc := Failed(CommandFailed), volume := s.volume.(scrubbed := Some(e.cut)))
      else if !e.Ok? || s.volume.record.None? then s.(pc := Failed(CommandFailed))
      else s.(pc := PublishScrubbed, volume := s.volume.(scrubbed := Some(s.volume.record.value.(root := ""))))
    case PublishScrubbed =>
      if !e.Ok? || s.volume.scrubbed.None? then s.(pc := Failed(CommandFailed))
      else s.(pc := Done, volume := s.volume.(record := s.volume.scrubbed, scrubbed := None))
    case _ => s
  }

  // ------------------------------------------------------------ the machine

  predicate Initializing(pc: Pc) {
    pc.ReadInit? || pc.StagePgp? || pc.OpenPartial? || pc.OperatorInit? || pc.Publish? || pc.RemovePgp?
  }

  predicate Installing(pc: Pc) {
    pc.LookupAccess? || pc.ReadRoot? || pc.Install? || pc.LookupInstalled?
  }

  function Command(s: State, e: Event): State {
    if s.pc.WaitSealed? then StepWaitSealed(s, e)
    else if s.pc.WaitUnsealed? then StepWaitUnsealed(s, e)
    else if Initializing(s.pc) then StepInitialize(s, e)
    else if Installing(s.pc) then StepInstall(s, e)
    else if s.pc.Kv? then StepKv(s, e)
    else if s.pc.InTransit? then StepTransit(s, e)
    else StepRetire(s, e)
  }

  function Outside(s: State, auth: Token, w: Vault): State {
    if s.vault.Allows(auth) && Some(auth) != s.vault.issued && Grows(s.vault, w) then s.(vault := w) else s
  }

  function Step(s: State, e: Event): State {
    if e.Restart? then s.(cfg := e.cfg, pc := Start(e.cfg))
    else if e.Others? then Outside(s, e.auth, e.vault)
    else Command(s, e)
  }

  function Exec(s: State, es: seq<Event>): State
    decreases |es|
  {
    if es == [] then s else Step(Exec(s, es[..|es| - 1]), es[|es| - 1])
  }

  /** What holds of the world whatever it answers: a root token is issued fresh, an
      init command that succeeds has written the whole response, and no run is ever
      configured with the initial root token as its access token. */
  predicate Admissible(s: State, e: Event) {
    match e
    case InitDone(root, response) => FreshRoot(s, root) && response.root == root
    case InitLost(root, _) => FreshRoot(s, root)
    case Restart(cfg) => Some(cfg.token) != s.vault.issued
    case _ => true
  }

  predicate FreshRoot(s: State, root: Token) {
    root != "" && root != s.cfg.token && root !in s.vault.live
  }

  ghost predicate AdmissibleRun(s: State, es: seq<Event>)
    decreases |es|
  {
    es == [] || (AdmissibleRun(s, es[..|es| - 1]) && Admissible(Exec(s, es[..|es| - 1]), es[|es| - 1]))
  }

  /** Before the first container ever starts. */
  const ORIGIN := State(FRESH, EMPTY_VOLUME, Config("", "", "", 0, false), Stopped, {})

  lemma ExecStep(s: State, es: seq<Event>, e: Event)
    ensures Exec(s, es + [e]) == Step(Exec(s, es), e)
    ensures AdmissibleRun(s, es + [e]) <==> AdmissibleRun(s, es) && Admissible(Exec(s, es), e)
  {
    assert (es + [e])[..|es|] == es;
  }

  lemma {:induction false} ExecConcat(s: State, es: seq<Event>, fs: seq<Event>)
    ensures Exec(s, es + fs) == Exec(Exec(s, es), fs)
    ensures AdmissibleRun(s, es + fs) <==> AdmissibleRun(s, es) && AdmissibleRun(Exec(s, es), fs)
    decreases |fs|
  {
    if fs == [] {
      assert es + fs == es;
    } else {
      var n := |fs| - 1;
      ExecConcat(s, es, fs[..n]);
      assert es + fs == es + fs[..n] + [fs[n]];
      ExecStep(s, es + fs[..n], fs[n]);
    }
  }

  // ------------------------------------------------------------ the bounded wait

  function Waiting(sealed: bool, attempt: int): Pc {
    if sealed then WaitSealed(attempt) else WaitUnsealed(attempt)
  }

  /** A status that does not end the wait. */
  predicate NotYet(sealed: bool, v: Vault, e: Event) {
    && !e.Restart? && !e.Others?
    && (if sealed then StatusCode(v, e) == 1 else StatusCode(v, e) != 0)
  }

  /** wait_for_server asks at least once and at most `attempts` times, and gives up on
      exactly the last of them. */
  lemma {:induction false} WaitGivesUpExactlyAt(s: State, sealed: bool, es: seq<Event>)
    requires s.pc == Waiting(sealed, 0)
    requires forall i | 0 <= i < |es| :: NotYet(sealed, s.vault, es[i])
    ensures Exec(s, es) == s.(pc := if |es| == 0 || |es| < s.cfg.attempts then Waiting(sealed, |es|) else Failed(NotReady))
    decreases |es|
  {
    if es != [] {
      var before := es[..|es| - 1];
      assert forall i | 0 <= i < |before| :: before[i] == es[i];
      WaitGivesUpExactlyAt(s, sealed, before);
      assert NotYet(sealed, s.vault, es[|es| - 1]);
    }
  }
}
