/** localVaultState.bootstrap (localstate.go) as a machine over the local Vault and
    the disk that holds its custody, through restarts and power failures. */
module Bootstrap {
  import opened Options
  import opened VaultModel
  import opened Storage
  import Custody

  datatype Pc =
    | Stopped | LoadCustody | GetInit(attempt: nat, custody: Option<Credentials>) | PostInit
    | Saving(first: bool, save: Custody.Pc)
    | Unseal | GetMounts | PostMount | PostOrphan | LookupSelf
    | Done(token: Token) | Failed

  /** `barrier` is the unseal key of the one initialization, `c` the credentials the
      call works with once it has them. */
  datatype State = State(
    vault: Vault, sealed: bool, barrier: string, disk: Disk,
    preferred: Token, pc: Pc, c: Credentials)

  /** Ok: done and said so. Lost: done, but the answer is an error. Fails: not done.
      Restart: a new agent process, perhaps with a new server; PowerLoss: the machine
      goes down, and the disk keeps what it keeps. */
  datatype Event =
    | Ok | Lost | Fails | Partly(raw: string) | Cancelled
    | InitDone(root: Token, key: string) | InitLost(root: Token, key: string)
    | Restart(preferred: Token, reseal: bool)
    | PowerLoss(keep: nat -> bool, lost: nat -> Content)

  const ATTEMPTS := 30

  const ORIGIN := State(VaultModel.FRESH, true, "", Storage.FRESH, "", Stopped, Credentials("", "", ""))

  /** The token bootstrap hands out for stored credentials. */
  function Published(c: Credentials): Token {
    if c.access == "" then c.root else c.access
  }

  function AsIo(e: Event): Custody.Io {
    if e.Ok? then Custody.Works else if e.Partly? then Custody.Partly(e.raw) else Custody.Fails
  }

  predicate Usable(s: State, auth: Token) {
    !s.sealed && s.vault.Allows(auth)
  }

  // ------------------------------------------------------------ the steps

  function StepLoad(s: State, e: Event): (t: State)
    ensures t.disk == s.disk && t.preferred == s.preferred
    ensures t.vault == s.vault && t.barrier == s.barrier
  {
    if !e.Ok? then s.(pc := Failed)
    else match Load(s.disk)
         case Absent => s.(pc := GetInit(0, None))
         case Valid(c) => s.(pc := GetInit(0, Some(c)))
         case Invalid => s.(pc := Failed)
  }

  function StepGetInit(s: State, e: Event): (t: State)
    requires s.pc.GetInit?
    ensures t.disk == s.disk && t.preferred == s.preferred
    ensures t.vault == s.vault && t.barrier == s.barrier
  {
    if e.Cancelled? then s.(pc := Failed)
    else if !e.Ok? then s.(pc := if s.pc.attempt + 1 < ATTEMPTS then GetInit(s.pc.attempt + 1, s.pc.custody) else Failed)
    else if s.vault.Initialized() != s.pc.custody.Some? then s.(pc := Failed)
    else if s.pc.custody.None? then s.(pc := PostInit)
    else s.(pc := Unseal, c := s.pc.custody.value)
  }

  function StepPostInit(s: State, e: Event): (t: State)
    ensures t.disk == s.disk && t.preferred == s.preferred
    ensures s.vault.Initialized() ==> t.vault == s.vault && t.barrier == s.barrier
  {
    if !(e.InitDone? || e.InitLost?) || s.vault.Initialized() then s.(pc := Failed)
    else
      var t := s.(vault := Initialize(s.vault, e.root), barrier := e.key, sealed := true);
      if e.InitLost? then t.(pc := Failed)
      else t.(pc := Saving(true, Custody.CreateTemp), c := Credentials(e.root, e.key, e.root))
  }

  function StepSave(s: State, e: Event): (t: State)
    requires s.pc.Saving?
    ensures t.vault == s.vault && t.barrier == s.barrier && t.preferred == s.preferred && t.c == s.c && t.sealed == s.sealed
  {
    var (d, save) := Custody.Step(s.disk, s.pc.save, s.c, AsIo(e));
    s.(disk := d, pc := AfterSave(s.pc.first, save))
  }

  function AfterSave(first: bool, save: Custody.Pc): Pc {
    if save.Saved? then (if first then Unseal else LookupSelf)
    else if save.NotSaved? then Failed
    else Saving(first, save)
  }

  function AfterMounts(s: State): Pc {
    if s.preferred != "" && s.preferred != s.c.access then PostOrphan else LookupSelf
  }

  function StepRequest(s: State, e: Event): (t: State)
    ensures t.disk == s.disk && t.preferred == s.preferred
    ensures t.barrier == s.barrier && t.vault.issued == s.vault.issued
    ensures TokensKept(s.vault, t.vault) && MountsKept(s.vault, t.vault)
  {
    match s.pc
    case Unseal =>
      var opens := (e.Ok? || e.Lost?) && s.vault.Initialized() && s.c.unseal == s.barrier;
      var t := s.(sealed := if opens then false else s.sealed);
      t.(pc := if opens && e.Ok? then GetMounts else Failed)
    case GetMounts =>
      if !e.Ok? || !Usable(s, s.c.root) then s.(pc := Failed)
      else if SECRET !in s.vault.mounts then s.(pc := PostMount)
      else s.(pc := if s.vault.mounts[SECRET] == KV2 then AfterMounts(s) else Failed)
    case PostMount =>
      var applies := (e.Ok? || e.Lost?) && Usable(s, s.c.root) && SECRET !in s.vault.mounts;
      var t := s.(vault := if applies then EnableMount(s.vault, s.c.root, SECRET, KV2) else s.vault);
      t.(pc := if applies && e.Ok? then AfterMounts(s) else Failed)
    case PostOrphan =>
      var applies := (e.Ok? || e.Lost?) && Usable(s, s.c.root);
      var t := s.(vault := if applies then CreateOrphan(s.vault, s.c.root, s.preferred) else s.vault);
      if applies && e.Ok? then t.(pc := Saving(false, Custody.CreateTemp), c := s.c.(access := s.preferred))
      else t.(pc := Failed)
    case LookupSelf =>
      s.(pc := if e.Ok? && Usable(s, Published(s.c)) then Done(Published(s.c)) else Failed)
    case _ => s
  }

  function Answered(s: State, e: Event): State {
    if s.pc.LoadCustody? then StepLoad(s, e)
    else if s.pc.GetInit? then StepGetInit(s, e)
    else if s.pc.PostInit? then StepPostInit(s, e)
    else if s.pc.Saving? then StepSave(s, e)
    else StepRequest(s, e)
  }

  function Step(s: State, e: Event): State {
    if e.Restart? then s.(pc := LoadCustody, preferred := e.preferred, sealed := s.sealed || e.reseal)
    else if e.PowerLoss? then s.(pc := Stopped, sealed := true, disk := Crash(s.disk, e.keep, e.lost))
    else Answered(s, e)
  }

  function Exec(s: State, es: seq<Event>): State
    decreases |es|
  {
    if es == [] then s else Step(Exec(s, es[..|es| - 1]), es[|es| - 1])
  }

  /** An initialization answers with a root token and one key, neither of them empty. */
  predicate Admissible(e: Event) {
    e.InitDone? || e.InitLost? ==> e.root != "" && e.key != ""
  }

  predicate AdmissibleRun(es: seq<Event>) {
    forall i | 0 <= i < |es| :: Admissible(es[i])
  }

  // ------------------------------------------------------------ the invariant

  /** Credentials of the one initialization, with an access token Vault knows. */
  predicate Genuine(s: State, c: Credentials) {
    && Some(c.root) == s.vault.issued && c.unseal == s.barrier && Complete(c)
    && c.access in s.vault.live
  }

  ghost predicate CustodyGenuine(s: State) {
    && Safe(s.disk)
    && forall ino: nat :: Candidate(s.disk, ino) ==>
         HoldsCredentials(s.disk, ino) && Genuine(s, s.disk.files[ino].content.c)
  }

  predicate KvMounted(s: State) {
    SECRET in s.vault.mounts && s.vault.mounts[SECRET] == KV2
  }

  predicate AsConfigured(s: State) {
    s.preferred == "" || s.preferred == s.c.access
  }

  ghost predicate AtPc(s: State) {
    match s.pc
    case GetInit(_, custody) => Load(s.disk) == if custody.Some? then Valid(custody.value) else Absent
    case PostInit => !s.vault.Initialized()
    case Saving(first, save) =>
      && Genuine(s, s.c) && Custody.InProgress(s.disk, save, s.c) && !save.Finished()
      && (!first ==> s.c.access == s.preferred && s.preferred != "" && Load(s.disk).Valid? && KvMounted(s))
    case Unseal => Load(s.disk) == Valid(s.c)
    case GetMounts => Load(s.disk) == Valid(s.c)
    case PostMount => Load(s.disk) == Valid(s.c)
    case PostOrphan => Load(s.disk) == Valid(s.c) && s.preferred != "" && KvMounted(s)
    case LookupSelf => Load(s.disk) == Valid(s.c) && AsConfigured(s) && KvMounted(s)
    case Done(token) =>
      && Load(s.disk) == Valid(s.c) && AsConfigured(s) && KvMounted(s)
      && token == Published(s.c) && s.vault.Allows(token)
    case _ => true
  }

  ghost predicate Inv(s: State) {
    && CustodyGenuine(s)
    && (s.vault.Initialized() ==> s.vault.issued.value in s.vault.live && s.vault.issued.value != "" && s.barrier != "")
    && (!s.vault.Initialized() ==> s.vault.live == map[] && s.vault.mounts == map[])
    && AtPc(s)
  }

  lemma LoadIsGenuine(s: State)
    requires CustodyGenuine(s)
    ensures !Load(s.disk).Invalid?
    ensures Load(s.disk).Valid? ==> Genuine(s, Load(s.disk).c)
    ensures Load(s.disk).Absent? ==> forall ino: nat :: !Candidate(s.disk, ino)
  {
    ViewIsCandidate(s.disk);
  }

  lemma SavingKeepsInv(s: State, e: Event)
    requires Inv(s) && s.pc.Saving?
    ensures Inv(StepSave(s, e))
  {
    Custody.StepKeeps(s.disk, s.pc.save, s.c, AsIo(e));
    LoadIsGenuine(s);
    var t := StepSave(s, e);
    forall ino: nat | Candidate(t.disk, ino)
      ensures HoldsCredentials(t.disk, ino) && Genuine(t, t.disk.files[ino].content.c)
    {
    }
  }

  lemma StillGenuine(s: State, t: State)
    requires CustodyGenuine(s)
    requires t.disk == s.disk && t.barrier == s.barrier && t.vault.issued == s.vault.issued && TokensKept(s.vault, t.vault)
    ensures CustodyGenuine(t)
  {
  }

  lemma RequestKeepsAtPc(s: State, e: Event)
    requires AtPc(s) && !s.pc.Saving? && !s.pc.LoadCustody? && !s.pc.GetInit? && !s.pc.PostInit?
    requires Load(s.disk).Valid? ==> Genuine(s, Load(s.disk).c)
    ensures AtPc(StepRequest(s, e))
  {
    if s.pc.PostOrphan? {
      assert StepRequest(s, e).vault.mounts == s.vault.mounts;
    }
  }

  lemma RequestKeepsInv(s: State, e: Event)
    requires Inv(s) && !s.pc.Saving? && !s.pc.LoadCustody? && !s.pc.GetInit? && !s.pc.PostInit?
    ensures Inv(StepRequest(s, e))
  {
    LoadIsGenuine(s);
    RequestKeepsAtPc(s, e);
    StillGenuine(s, StepRequest(s, e));
  }

  lemma InitKeepsInv(s: State, e: Event)
    requires Inv(s) && Admissible(e) && s.pc.PostInit?
    ensures Inv(StepPostInit(s, e))
  {
    assert forall ino: nat :: !Candidate(s.disk, ino);
  }

  lemma PowerLossKeepsInv(s: State, keep: nat -> bool, lost: nat -> Content)
    requires Inv(s)
    ensures Inv(Step(s, PowerLoss(keep, lost)))
  {
    CrashLeavesCandidate(s.disk, keep, lost);
  }

  lemma LoadingKeepsInv(s: State, e: Event)
    requires Inv(s) && (s.pc.LoadCustody? || s.pc.GetInit?)
    ensures Inv(Answered(s, e))
  {
    LoadIsGenuine(s);
    var t := Answered(s, e);
    assert t == s.(pc := t.pc, c := t.c);
  }

  lemma {:induction false} StepKeepsInv(s: State, e: Event)
    requires Inv(s) && Admissible(e)
    ensures Inv(Step(s, e))
  {
    if e.PowerLoss? {
      PowerLossKeepsInv(s, e.keep, e.lost);
    } else if e.Restart? {
      RestartKeepsInv(s, e.preferred, e.reseal);
    } else if s.pc.Saving? {
      SavingKeepsInv(s, e);
    } else if s.pc.PostInit? {
      InitKeepsInv(s, e);
    } else if s.pc.LoadCustody? || s.pc.GetInit? {
      LoadingKeepsInv(s, e);
    } else {
      RequestKeepsInv(s, e);
    }
  }

  lemma RestartKeepsInv(s: State, preferred: Token, reseal: bool)
    requires Inv(s)
    ensures Inv(Step(s, Restart(preferred, reseal)))
  {
  }

  lemma {:induction false} ExecKeepsInv(s: State, es: seq<Event>)
    requires Inv(s) && AdmissibleRun(es)
    ensures Inv(Exec(s, es))
    decreases |es|
  {
    if es != [] {
      ExecKeepsInv(s, es[..|es| - 1]);
      StepKeepsInv(Exec(s, es[..|es| - 1]), es[|es| - 1]);
    }
  }

  lemma {:induction false} Reachable(es: seq<Event>)
    requires AdmissibleRun(es)
    ensures Inv(Exec(ORIGIN, es))
  {
    ExecKeepsInv(ORIGIN, es);
  }

  // ------------------------------------------------------------ custody over whole histories

  /** Through any bootstraps, restarts and power failures from a fresh directory, what
      load finds now, and whatever it may find after the next power failure, is either
      nothing or the root token and unseal key of the one initialization. */
  lemma {:induction false} CustodyOverHistories(es: seq<Event>, r: Loaded)
    requires AdmissibleRun(es)
    ensures var s := Exec(ORIGIN, es);
            (r == Load(s.disk) || MayLoad(s.disk, r)) ==> r.Absent? || (r.Valid? && Genuine(s, r.c))
  {
    Reachable(es);
    var s := Exec(ORIGIN, es);
    LoadIsGenuine(s);
    CrashOutcomes(s.disk, r);
  }

  lemma StepInitializesOnce(s: State, e: Event)
    requires s.vault.Initialized()
    ensures Step(s, e).vault.issued == s.vault.issued && Step(s, e).barrier == s.barrier
    ensures CredentialsFile in s.disk.durable && Inv(s) ==> CredentialsFile in Step(s, e).disk.durable
  {
    if e.PowerLoss? && Inv(s) {
      CrashLeavesCandidate(s.disk, e.keep, e.lost);
    } else if s.pc.Saving? && Inv(s) {
      Custody.StepKeeps(s.disk, s.pc.save, s.c, AsIo(e));
    }
  }

  /** Once initialized, Vault is never asked to initialize again, and once credentials
      have reached the platter they stay there, root token and unseal key unchanged,
      through whatever follows. */
  lemma {:induction false} NoSecondInitialization(s: State, es: seq<Event>)
    requires Inv(s) && s.vault.Initialized() && AdmissibleRun(es)
    ensures var t := Exec(s, es);
            && Inv(t) && !t.pc.PostInit?
            && t.vault.issued == s.vault.issued && t.barrier == s.barrier
            && (CredentialsFile in s.disk.durable ==>
                  && CredentialsFile in t.disk.durable
                  && Load(t.disk).Valid? && Genuine(t, Load(t.disk).c)
                  && Some(Load(t.disk).c.root) == s.vault.issued && Load(t.disk).c.unseal == s.barrier)
    decreases |es|
  {
    ExecKeepsInv(s, es);
    if es != [] {
      NoSecondInitialization(s, es[..|es| - 1]);
      StepInitializesOnce(Exec(s, es[..|es| - 1]), es[|es| - 1]);
    }
    LoadIsGenuine(Exec(s, es));
    NamedByApply(Exec(s, es).disk.durable, Exec(s, es).disk.pending);
  }

  /** Initialized, with no custody left anywhere. */
  ghost predicate CustodyLost(s: State, vault: Vault) {
    && s.vault == vault && vault.Initialized()
    && Safe(s.disk) && (forall ino: nat :: !Candidate(s.disk, ino))
    && (s.pc.Stopped? || s.pc.LoadCustody? || s.pc.Failed? || (s.pc.GetInit? && s.pc.custody.None?))
  }

  lemma CustodyLostStep(s: State, e: Event, vault: Vault)
    requires CustodyLost(s, vault)
    ensures CustodyLost(Step(s, e), vault)
  {
    if e.PowerLoss? {
      CrashLeavesCandidate(s.disk, e.keep, e.lost);
    }
    ViewIsCandidate(s.disk);
  }

  /** A Vault whose custody is gone is refused by every later bootstrap, and left as
      it is: its keys are never replaced. */
  lemma {:induction false} LostCustodyRefused(s: State, preferred: Token, reseal: bool, es: seq<Event>)
    requires Inv(s) && s.vault.Initialized() && Load(s.disk).Absent?
    ensures CustodyLost(Exec(Step(s, Restart(preferred, reseal)), es), s.vault)
    decreases |es|
  {
    if es == [] {
      LoadIsGenuine(s);
    } else {
      LostCustodyRefused(s, preferred, reseal, es[..|es| - 1]);
      CustodyLostStep(Exec(Step(s, Restart(preferred, reseal)), es[..|es| - 1]), es[|es| - 1], s.vault);
    }
  }

  // ------------------------------------------------------------ the published token

  /** A bootstrap that succeeds hands out a token Vault just accepted: the configured
      one if there is one, and in any case the one now stored. */
  lemma PublishedTokenValid(es: seq<Event>)
    requires AdmissibleRun(es)
    ensures var s := Exec(ORIGIN, es);
            s.pc.Done? ==>
              && s.vault.Allows(s.pc.token) && !(s.preferred != "" && s.pc.token != s.preferred)
              && Load(s.disk).Valid? && s.pc.token == Published(Load(s.disk).c)
  {
    Reachable(es);
  }

  /** No token is configured, and the stored credentials are c. */
  predicate Unconfigured(s: State, c: Credentials) {
    && Load(s.disk) == Valid(c) && s.preferred == ""
    && !s.pc.Saving? && !s.pc.PostInit? && !s.pc.PostOrphan?
    && (s.pc.Done? ==> s.pc.token == Published(c))
  }

  predicate UnconfiguredRestarts(es: seq<Event>) {
    forall i | 0 <= i < |es| :: Admissible(es[i]) && (es[i].Restart? ==> es[i].preferred == "")
  }

  predicate PowerStays(es: seq<Event>) {
    forall i | 0 <= i < |es| :: !es[i].PowerLoss?
  }

  lemma UnconfiguredStep(s: State, e: Event, c: Credentials)
    requires AtPc(s) && Unconfigured(s, c) && !e.PowerLoss? && (e.Restart? ==> e.preferred == "")
    ensures Unconfigured(Step(s, e), c)
  {
    assert Step(s, e).disk == s.disk;
  }

  /** As long as the power stays on, every unconfigured bootstrap that succeeds hands
      out the stored token. */
  lemma {:induction false} RestartsAgree(s: State, c: Credentials, reseal: bool, es: seq<Event>)
    requires Inv(s) && Load(s.disk) == Valid(c) && UnconfiguredRestarts(es) && PowerStays(es)
    ensures Unconfigured(Exec(Step(s, Restart("", reseal)), es), c)
    decreases |es|
  {
    if es != [] {
      var before := es[..|es| - 1];
      assert UnconfiguredRestarts(before) && PowerStays(before);
      RestartsAgree(s, c, reseal, before);
      StepKeepsInv(s, Restart("", reseal));
      ExecKeepsInv(Step(s, Restart("", reseal)), before);
      UnconfiguredStep(Exec(Step(s, Restart("", reseal)), before), es[|es| - 1], c);
    }
  }

  /** Every credentials.json a power failure can leave hands out the same token. */
  ghost predicate OneToken(d: Disk, token: Token) {
    forall ino: nat :: Candidate(d, ino) ==> ino in d.files && d.files[ino].content.Encoded? && Published(d.files[ino].content.c) == token
  }

  /** As it is when the last save returned nil. */
  lemma SavedMeansOneToken(d: Disk, c: Credentials)
    requires Safe(d) && d.pending == [] && Load(d) == Valid(c)
    ensures OneToken(d, Published(c))
  {
    assert View(d) == d.durable;
  }

  ghost predicate OnlyHandsOut(s: State, token: Token) {
    && OneToken(s.disk, token) && (s.pc.Stopped? || s.preferred == "")
    && !s.pc.Saving? && !s.pc.PostInit? && !s.pc.PostOrphan?
    && (s.pc.Done? ==> s.pc.token == token)
  }

  lemma ViewHandsOut(d: Disk, token: Token)
    requires Safe(d) && OneToken(d, token)
    ensures Load(d).Valid? ==> Published(Load(d).c) == token
  {
    ViewIsCandidate(d);
  }

  lemma AnswerHandsOut(s: State, e: Event, token: Token)
    requires AtPc(s) && s.vault.Initialized() && !e.PowerLoss? && !e.Restart? && s.preferred == ""
    requires !s.pc.Saving? && !s.pc.PostInit? && !s.pc.PostOrphan? && (s.pc.Done? ==> s.pc.token == token)
    requires Load(s.disk).Valid? ==> Published(Load(s.disk).c) == token
    ensures var t := Step(s, e);
            && t.disk == s.disk && t.preferred == ""
            && !t.pc.Saving? && !t.pc.PostInit? && !t.pc.PostOrphan? && (t.pc.Done? ==> t.pc.token == token)
  {
    if s.pc.LoadCustody? {
      assert Step(s, e) == StepLoad(s, e);
    } else if s.pc.GetInit? {
      assert Step(s, e) == StepGetInit(s, e);
    } else {
      assert Step(s, e) == StepRequest(s, e);
    }
  }

  lemma OnlyHandsOutStep(s: State, e: Event, token: Token)
    requires Inv(s) && s.vault.Initialized() && OnlyHandsOut(s, token) && (e.Restart? ==> e.preferred == "")
    ensures OnlyHandsOut(Step(s, e), token)
  {
    if e.PowerLoss? {
      CrashLeavesCandidate(s.disk, e.keep, e.lost);
    } else if e.Restart? {
    } else if s.pc.Stopped? {
      assert Step(s, e) == s;
    } else {
      ViewHandsOut(s.disk, token);
      AnswerHandsOut(s, e, token);
    }
  }

  lemma {:induction false} OneTokenForever(s: State, token: Token, reseal: bool, es: seq<Event>)
    requires Inv(s) && s.vault.Initialized() && OneToken(s.disk, token) && UnconfiguredRestarts(es)
    ensures OnlyHandsOut(Exec(Step(s, Restart("", reseal)), es), token)
    decreases |es|
  {
    if es != [] {
      var before := es[..|es| - 1];
      assert UnconfiguredRestarts(before);
      OneTokenForever(s, token, reseal, before);
      var s' := Step(s, Restart("", reseal));
      StepKeepsInv(s, Restart("", reseal));
      ExecKeepsInv(s', before);
      NoSecondInitialization(s', before);
      OnlyHandsOutStep(Exec(s', before), es[|es| - 1], token);
    }
  }

  /** Seven answers that bring up the given candidate after a power failure. */
  function Comeback(keep: nat -> bool, lost: nat -> Content): seq<Event> {
    [PowerLoss(keep, lost), Restart("", true), Ok, Ok, Ok, Ok, Ok]
  }

  lemma {:induction false} ExecSeven(s: State, a: Event, b: Event)
    ensures Exec(s, [a, b, Ok, Ok, Ok, Ok, Ok]) == Step(Step(Step(Step(Step(Step(Step(s, a), b), Ok), Ok), Ok), Ok), Ok)
  {
    var es := [a, b, Ok, Ok, Ok, Ok, Ok];
    assert es[..6] == [a, b, Ok, Ok, Ok, Ok] && es[..6][..5] == [a, b, Ok, Ok, Ok];
    assert Exec(s, es) == Step(Step(Exec(s, [a, b, Ok, Ok, Ok]), Ok), Ok);
    var fs := [a, b, Ok, Ok, Ok];
    assert fs[..4] == [a, b, Ok, Ok] && fs[..4][..3] == [a, b, Ok];
    assert Exec(s, fs) == Step(Step(Exec(s, [a, b, Ok]), Ok), Ok);
    var gs := [a, b, Ok];
    assert gs[..2] == [a, b] && gs[..2][..1] == [a] && gs[..2][..1][..0] == [];
    assert Exec(s, [a]) == Step(s, a);
    assert Exec(s, [a, b]) == Step(Exec(s, [a]), b);
  }

  /** An answered bootstrap over valid, genuine custody and a mounted secret/. */
  lemma {:induction false} ReadsBack(s: State, c: Credentials)
    requires Inv(s) && s.pc.LoadCustody? && s.preferred == "" && Load(s.disk) == Valid(c) && KvMounted(s)
    ensures Step(Step(Step(Step(Step(s, Ok), Ok), Ok), Ok), Ok).pc == Done(Published(c))
  {
    LoadIsGenuine(s);
    var s1 := s.(pc := GetInit(0, Some(c)));
    assert Step(s, Ok) == s1;
    var s2 := s.(pc := Unseal, c := c);
    assert Step(s1, Ok) == s2;
    var s3 := s2.(pc := GetMounts, sealed := false);
    assert Step(s2, Ok) == s3;
    var s4 := s3.(pc := LookupSelf);
    assert Step(s3, Ok) == s4;
  }

  lemma {:induction false} ComesBack(s: State, keep: nat -> bool, lost: nat -> Content, c: Credentials)
    requires Inv(s) && KvMounted(s) && Load(Crash(s.disk, keep, lost)) == Valid(c)
    ensures Exec(s, Comeback(keep, lost)).pc == Done(Published(c))
  {
    var s1 := Step(s, PowerLoss(keep, lost));
    var s2 := Step(s1, Restart("", true));
    PowerLossKeepsInv(s, keep, lost);
    StepKeepsInv(s1, Restart("", true));
    ReadsBack(s2, c);
    ExecSeven(s, PowerLoss(keep, lost), Restart("", true));
  }

  lemma OtherOutcome(d: Disk, token: Token) returns (keep: nat -> bool, lost: nat -> Content, c: Credentials)
    requires Safe(d) && !OneToken(d, token)
    ensures Load(Crash(d, keep, lost)) == Valid(c) && Published(c) != token
  {
    var ino: nat :| Candidate(d, ino)
                    && !(ino in d.files && d.files[ino].content.Encoded? && Published(d.files[ino].content.c) == token);
    assert HoldsCredentials(d, ino);
    c := d.files[ino].content.c;
    CrashOutcomes(d, Valid(c));
    keep, lost :| Load(Crash(d, keep, lost)) == Valid(c);
  }

  lemma Disagrees(s: State, token: Token) returns (es: seq<Event>)
    requires Inv(s) && KvMounted(s) && !OneToken(s.disk, token)
    ensures UnconfiguredRestarts(es) && SettlesUnconfigured(es)
    ensures Exec(s, es).pc.Done? && Exec(s, es).pc.token != token
  {
    var keep, lost, c := OtherOutcome(s.disk, token);
    ComesBack(s, keep, lost, c);
    es := Comeback(keep, lost);
  }

  /** Through power failures too, consecutive unconfigured bootstraps that succeed
      agree on the token exactly when no rename that changes it is still waiting for its
      directory sync. */
  lemma PowerFailuresAgreeExactlyWhen(s: State, token: Token)
    requires Inv(s) && s.pc == Done(token)
    ensures OneToken(s.disk, token) <==>
            forall es: seq<Event> :: UnconfiguredRestarts(es) && SettlesUnconfigured(es) ==>
              (Exec(s, es).pc.Done? ==> Exec(s, es).pc.token == token)
  {
    if OneToken(s.disk, token) {
      forall es: seq<Event> | UnconfiguredRestarts(es) && SettlesUnconfigured(es)
        ensures Exec(s, es).pc.Done? ==> Exec(s, es).pc.token == token
      {
        AgreesFromHere(s, token, es);
      }
    } else {
      var es := Disagrees(s, token);
    }
  }

  /** The first thing that happens is a power failure or an unconfigured restart. */
  predicate SettlesUnconfigured(es: seq<Event>) {
    es != [] ==> es[0].PowerLoss? || es[0].Restart?
  }

  lemma {:induction false} AgreesFromHere(s: State, token: Token, es: seq<Event>)
    requires Inv(s) && s.vault.Initialized() && s.pc == Done(token) && OneToken(s.disk, token)
    requires UnconfiguredRestarts(es) && SettlesUnconfigured(es)
    ensures es == [] || OnlyHandsOut(Exec(s, es), token)
    decreases |es|
  {
    if es != [] {
      var before, e := es[..|es| - 1], es[|es| - 1];
      assert UnconfiguredRestarts(before);
      AgreesFromHere(s, token, before);
      ExecKeepsInv(s, before);
      NoSecondInitialization(s, before);
      if before == [] {
        if e.PowerLoss? { CrashLeavesCandidate(s.disk, e.keep, e.lost); }
      } else {
        assert before[0] == es[0];
        OnlyHandsOutStep(Exec(s, before), e, token);
      }
    }
  }

  // ------------------------------------------------------------ an answered bootstrap

  /** Every request and file operation works. Only two answers are left open: the server
      may take its time to start, and it may refuse to create a token that exists. */
  predicate Calm(s: State, e: Event) {
    if s.pc.PostInit? then e.InitDone? && Admissible(e)
    else
      || e.Ok?
      || (s.pc.GetInit? && (e.Lost? || e.Fails?))
      || (s.pc.PostOrphan? && s.preferred in s.vault.live && e.Fails?)
  }

  ghost predicate CalmRun(s: State, es: seq<Event>)
    decreases |es|
  {
    es == [] || (CalmRun(s, es[..|es| - 1]) && Calm(Exec(s, es[..|es| - 1]), es[|es| - 1]))
  }

  /** From every state there is such a run, of any length. */
  lemma {:induction false} CalmRunExists(s: State, n: nat) returns (es: seq<Event>)
    ensures CalmRun(s, es) && |es| == n
    decreases n
  {
    if n == 0 {
      es := [];
    } else {
      var before := CalmRunExists(s, n - 1);
      es := before + [if Exec(s, before).pc.PostInit? then InitDone("root", "key") else Ok];
      assert es[..n - 1] == before;
    }
  }

  /** create-orphan, if the run gets there, is answered with success. */
  ghost predicate Accepted(s: State, es: seq<Event>)
    decreases |es|
  {
    es == [] || (Accepted(s, es[..|es| - 1]) && (Exec(s, es[..|es| - 1]).pc.PostOrphan? ==> es[|es| - 1].Ok?))
  }

  /** sys/init is answered within the thirty attempts. */
  ghost predicate UpInTime(s: State, es: seq<Event>)
    decreases |es|
  {
    es == [] ||
    var t, e := Exec(s, es[..|es| - 1]), es[|es| - 1];
    UpInTime(s, es[..|es| - 1]) && (t.pc.GetInit? && !e.Ok? ==> t.pc.attempt + 1 < 30)
  }

  function Rank(pc: Pc): nat {
    match pc
    case LoadCustody => 21 + ATTEMPTS
    case GetInit(attempt, _) => 20 + if attempt < ATTEMPTS then ATTEMPTS - attempt else 1
    case PostInit => 20
    case Saving(first, save) => (if first then 12 else 1) + save.Rank()
    case Unseal => 12
    case GetMounts => 11
    case PostMount => 10
    case PostOrphan => 9
    case LookupSelf => 1
    case _ => 0
  }

  const LONGEST_RUN := 21 + ATTEMPTS

  /** Nothing is in the way at this point of the call. */
  predicate Unhindered(s: State) {
    && (SECRET in s.vault.mounts ==> KvMounted(s))
    && (s.vault.Initialized() && !s.pc.Saving? ==> Load(s.disk).Valid?)
    && !s.pc.Failed? && !s.pc.Stopped?
    && (s.pc.GetInit? && s.pc.custody.None? ==> !s.vault.Initialized())
    && (s.pc.Saving? ==> s.vault.Initialized() && s.pc.save.Rank() > 0 && (s.pc.save.CloseTemp? ==> !s.pc.save.failed))
    && (s.pc.GetMounts? || s.pc.PostMount? || s.pc.PostOrphan? || s.pc.LookupSelf? || (s.pc.Saving? && !s.pc.first) ==> !s.sealed)
    && (s.pc.PostMount? ==> SECRET !in s.vault.mounts)
  }

  lemma SavingUnhindered(s: State, e: Event)
    requires AtPc(s) && Unhindered(s) && e.Ok? && s.pc.Saving?
    requires AtPc(StepSave(s, e))
    ensures Unhindered(StepSave(s, e)) && Rank(StepSave(s, e).pc) < Rank(s.pc)
  {
    match s.pc.save
    case CreateTemp => SaveGoesOn(s, e, Custody.WriteTemp(s.disk.next));
    case WriteTemp(ino) => SaveGoesOn(s, e, Custody.SyncTemp(ino));
    case SyncTemp(ino) => SaveGoesOn(s, e, Custody.CloseTemp(ino, false));
    case CloseTemp(ino, _) => SaveGoesOn(s, e, Custody.RenameTemp(ino));
    case RenameTemp(_) => SaveGoesOn(s, e, Custody.OpenDir);
    case OpenDir => SaveGoesOn(s, e, Custody.SyncDir);
    case SyncDir => SaveEnds(s, e);
  }

  lemma SaveGoesOn(s: State, e: Event, next: Custody.Pc)
    requires Unhindered(s) && e.Ok? && s.pc.Saving? && 0 < next.Rank() < s.pc.save.Rank()
    requires Custody.Step(s.disk, s.pc.save, s.c, Custody.Works).1 == next && (next.CloseTemp? ==> !next.failed)
    ensures Unhindered(StepSave(s, e)) && Rank(StepSave(s, e).pc) < Rank(s.pc)
  {
    assert StepSave(s, e).pc == Saving(s.pc.first, next);
  }

  lemma SaveEnds(s: State, e: Event)
    requires AtPc(s) && Unhindered(s) && e.Ok? && s.pc.Saving? && s.pc.save.SyncDir?
    requires AtPc(StepSave(s, e))
    ensures Unhindered(StepSave(s, e)) && Rank(StepSave(s, e).pc) < Rank(s.pc)
  {
    assert StepSave(s, e).pc == if s.pc.first then Unseal else LookupSelf;
  }

  lemma RequestUnhindered(s: State, e: Event)
    requires AtPc(s) && Unhindered(s) && e.Ok?
    requires s.pc.Unseal? || s.pc.GetMounts? || s.pc.PostMount? || s.pc.PostOrphan? || s.pc.LookupSelf?
    requires Load(s.disk).Valid? ==> Genuine(s, Load(s.disk).c)
    requires s.vault.Initialized() && s.vault.issued.value in s.vault.live
    ensures Unhindered(StepRequest(s, e)) && Rank(StepRequest(s, e).pc) < Rank(s.pc)
  {
  }

  lemma StaysUnhindered(s: State, e: Event)
    requires Inv(s) && Unhindered(s) && Calm(s, e)
    requires s.pc.PostOrphan? ==> e.Ok?
    requires s.pc.GetInit? && !e.Ok? ==> s.pc.attempt + 1 < ATTEMPTS
    ensures Inv(Step(s, e)) && Unhindered(Step(s, e))
    ensures if s.pc.Done? then Step(s, e) == s else Rank(Step(s, e).pc) < Rank(s.pc)
  {
    StepKeepsInv(s, e);
    LoadIsGenuine(s);
    if s.pc.Saving? {
      SavingUnhindered(s, e);
    } else if s.pc.PostInit? {
      assert Step(s, e) == StepPostInit(s, e);
    } else if s.pc.LoadCustody? {
      assert Step(s, e) == StepLoad(s, e);
    } else if s.pc.GetInit? {
      assert Step(s, e) == StepGetInit(s, e);
    } else if s.pc.Done? {
      assert Step(s, e) == s;
    } else {
      RequestUnhindered(s, e);
    }
  }

  lemma {:induction false} CalmRunStaysUnhindered(s: State, es: seq<Event>)
    requires Inv(s) && Unhindered(s) && CalmRun(s, es) && Accepted(s, es) && UpInTime(s, es)
    ensures Inv(Exec(s, es)) && Unhindered(Exec(s, es))
    ensures Rank(Exec(s, es).pc) + |es| <= Rank(s.pc) || Exec(s, es).pc.Done?
    ensures Exec(s, es).preferred == s.preferred
    decreases |es|
  {
    if es != [] {
      var before := es[..|es| - 1];
      CalmRunStaysUnhindered(s, before);
      StaysUnhindered(Exec(s, before), es[|es| - 1]);
    }
  }

  lemma MountsOnlyKv(s: State, e: Event)
    ensures Step(s, e).vault.mounts == s.vault.mounts || Step(s, e).vault.mounts == s.vault.mounts[SECRET := KV2]
  {
  }

  lemma {:induction false} OnlyKvIsMounted(es: seq<Event>)
    ensures forall p | p in Exec(ORIGIN, es).vault.mounts :: Exec(ORIGIN, es).vault.mounts[p] == KV2
    decreases |es|
  {
    hide Step;
    if es != [] {
      OnlyKvIsMounted(es[..|es| - 1]);
      MountsOnlyKv(Exec(ORIGIN, es[..|es| - 1]), es[|es| - 1]);
    }
  }

  lemma {:induction false} HinderedRunFails(s: State, es: seq<Event>)
    requires CalmRun(s, es) && !(Accepted(s, es) && UpInTime(s, es))
    ensures Exec(s, es).pc.Failed?
    decreases |es|
  {
    var before, e := es[..|es| - 1], es[|es| - 1];
    if !(Accepted(s, before) && UpInTime(s, before)) {
      HinderedRunFails(s, before);
    } else if Exec(s, before).pc.GetInit? {
      assert Exec(s, es) == StepGetInit(Exec(s, before), e);
    } else {
      assert Exec(s, es) == StepRequest(Exec(s, before), e);
    }
  }

  /** The configured token is not in Vault, or it is the stored one: as things stand,
      no token will be created a second time. */
  predicate Unclaimed(s: State) {
    match s.pc
    case LoadCustody => NewOr(s, if Load(s.disk).Valid? then Load(s.disk).c.access else "")
    case GetInit(_, custody) => NewOr(s, if custody.Some? then custody.value.access else "")
    case Saving(first, _) => first ==> NewOr(s, s.c.access)
    case Unseal => NewOr(s, s.c.access)
    case GetMounts => NewOr(s, s.c.access)
    case PostMount => NewOr(s, s.c.access)
    case PostOrphan => s.preferred !in s.vault.live
    case _ => true
  }

  predicate NewOr(s: State, stored: Token) {
    s.preferred == "" || s.preferred !in s.vault.live || s.preferred == stored
  }

  lemma UnclaimedRequest(s: State, e: Event)
    requires Unclaimed(s) && !s.pc.LoadCustody? && !s.pc.GetInit? && !s.pc.PostInit? && !s.pc.Saving?
    ensures Unclaimed(StepRequest(s, e))
  {
  }

  lemma UnclaimedStep(s: State, e: Event)
    requires Inv(s) && Unclaimed(s) && Calm(s, e)
    ensures Unclaimed(Step(s, e))
  {
    if s.pc.Saving? {
      assert Step(s, e) == StepSave(s, e);
    } else if s.pc.PostInit? {
      assert Step(s, e) == StepPostInit(s, e);
    } else if s.pc.LoadCustody? {
      assert Step(s, e) == StepLoad(s, e);
    } else if s.pc.GetInit? {
      assert Step(s, e) == StepGetInit(s, e);
    } else {
      UnclaimedRequest(s, e);
      assert Step(s, e) == StepRequest(s, e);
    }
  }

  lemma {:induction false} UnclaimedIsAccepted(s: State, es: seq<Event>)
    requires Inv(s) && Unclaimed(s) && CalmRun(s, es)
    ensures Accepted(s, es) && Inv(Exec(s, es)) && Unclaimed(Exec(s, es))
    decreases |es|
  {
    hide Step, Inv;
    if es != [] {
      var before, e := es[..|es| - 1], es[|es| - 1];
      UnclaimedIsAccepted(s, before);
      UnclaimedStep(Exec(s, before), e);
      StepKeepsInv(Exec(s, before), e);
    }
  }

  lemma AtTheStart(s: State, preferred: Token)
    requires Inv(s) && forall p | p in s.vault.mounts :: s.vault.mounts[p] == KV2
    ensures var t := Step(s, Restart(preferred, true));
            && Rank(t.pc) == LONGEST_RUN && t.preferred == preferred
            && (!(s.vault.Initialized() && Load(s.disk).Absent?) ==> Unhindered(t))
  {
    LoadIsGenuine(s);
  }

  lemma AtTheEnd(t: State)
    requires Inv(t) && Unhindered(t) && (Rank(t.pc) == 0 || t.pc.Done?)
    ensures t.pc.Done? && KvMounted(t) && t.vault.Allows(t.pc.token)
    ensures t.preferred != "" ==> t.pc.token == t.preferred
    ensures Load(t.disk).Valid? && t.pc.token == Published(Load(t.disk).c)
  {
  }

  /** From every state histories can leave, an answered bootstrap succeeds exactly when
      custody was not lost, the server is up within the thirty attempts, and
      create-orphan, if it comes to that, is accepted; it then publishes the configured
      token, or the stored one. It is always accepted unless an earlier run created the
      configured token and was cut before storing it. */
  lemma {:induction false} BootstrapSucceedsExactlyWhen(es: seq<Event>, preferred: Token, fs: seq<Event>)
    requires AdmissibleRun(es)
    requires CalmRun(Step(Exec(ORIGIN, es), Restart(preferred, true)), fs) && |fs| >= LONGEST_RUN
    ensures var s := Exec(ORIGIN, es);
            var t := Exec(Step(s, Restart(preferred, true)), fs);
            var s' := Step(s, Restart(preferred, true));
            && (t.pc.Done? <==>
                  !(s.vault.Initialized() && Load(s.disk).Absent?) && UpInTime(s', fs) && Accepted(s', fs))
            && (Unclaimed(s') ==> Accepted(s', fs))
            && (t.pc.Done? ==>
                  && KvMounted(t) && t.vault.Allows(t.pc.token) && (preferred != "" ==> t.pc.token == preferred)
                  && Load(t.disk).Valid? && t.pc.token == Published(Load(t.disk).c))
  {
    hide Exec, Step, Inv, Unhindered, CalmRun, Accepted, UpInTime, Unclaimed;
    var s := Exec(ORIGIN, es);
    var s' := Step(s, Restart(preferred, true));
    Reachable(es);
    RestartKeepsInv(s, preferred, true);
    OnlyKvIsMounted(es);
    AtTheStart(s, preferred);
    if Unclaimed(s') {
      UnclaimedIsAccepted(s', fs);
    }
    if s.vault.Initialized() && Load(s.disk).Absent? {
      LostCustodyRefused(s, preferred, true, fs);
    } else if !(Accepted(s', fs) && UpInTime(s', fs)) {
      HinderedRunFails(s', fs);
    } else {
      CalmRunStaysUnhindered(s', fs);
      AtTheEnd(Exec(s', fs));
    }
  }
}
