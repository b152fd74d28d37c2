/** Where an uninterrupted run ends, from every state that crashes can leave. */
module Convergence {
  import opened Options
  import opened VaultModel
  import opened Provisioning
  import opened Safety
  import Transit

  // ------------------------------------------------------------ a calm run

  /** The server may take its time to start and unseal; every command but a status is
      answered, an empty server initializes and its response arrives. */
  predicate Answered(s: State, e: Event) {
    if s.pc.OperatorInit? then e.InitDone? && Admissible(s, e)
    else e.Ok? || ((s.pc.WaitSealed? || s.pc.WaitUnsealed?) && (e.Lost? || e.Sealed?))
  }

  /** It does not take longer than the wait's attempts. */
  predicate InTime(s: State, e: Event) {
    && (s.pc.WaitSealed? && NotYet(true, s.vault, e) ==> s.pc.attempt + 1 < s.cfg.attempts)
    && (s.pc.WaitUnsealed? && NotYet(false, s.vault, e) ==> s.pc.attempt + 1 < s.cfg.attempts)
  }

  predicate Calm(s: State, e: Event) {
    Answered(s, e) && InTime(s, e)
  }

  ghost predicate AnsweredRun(s: State, es: seq<Event>)
    decreases |es|
  {
    es == [] || (AnsweredRun(s, es[..|es| - 1]) && Answered(Exec(s, es[..|es| - 1]), es[|es| - 1]))
  }

  ghost predicate CalmRun(s: State, es: seq<Event>)
    decreases |es|
  {
    es == [] || (CalmRun(s, es[..|es| - 1]) && Calm(Exec(s, es[..|es| - 1]), es[|es| - 1]))
  }

  lemma {:induction false} CalmIsAnswered(s: State, es: seq<Event>)
    requires CalmRun(s, es)
    ensures AnsweredRun(s, es)
    decreases |es|
  {
    if es != [] { CalmIsAnswered(s, es[..|es| - 1]); }
  }

  /** A server that is late once has the run fail for good. */
  lemma {:induction false} LateRunFails(s: State, es: seq<Event>)
    requires AnsweredRun(s, es) && !CalmRun(s, es)
    ensures Exec(s, es).pc.Failed?
    decreases |es|
  {
    var before, e := es[..|es| - 1], es[|es| - 1];
    if !CalmRun(s, before) {
      LateRunFails(s, before);
    } else {
      LateStatus(Exec(s, before), e);
    }
  }

  lemma LateStatus(s: State, e: Event)
    requires !InTime(s, e)
    ensures Step(s, e) == s.(pc := Failed(NotReady))
  {
  }

  /** Commands left, at most. */
  function Rank(pc: Pc): nat {
    match pc
    case WaitSealed(_) => 27
    case ReadInit => 26
    case StagePgp => 25
    case OpenPartial => 24
    case OperatorInit => 23
    case Publish => 22
    case RemovePgp => 21
    case WaitUnsealed(_) => 20
    case LookupAccess => 19
    case ReadRoot => 18
    case Install(_) => 17
    case LookupInstalled => 16
    case Kv(kv) => (match kv case ReadKv => 15 case EnableKv => 14 case RereadKv => 13 case ReadOptions => 12)
    case InTransit(t) => 5 + t.Rank()
    case ReadRootAgain => 5
    case Revoke(_) => 4
    case LookupRoot(_) => 3
    case WriteScrubbed => 2
    case PublishScrubbed => 1
    case _ => 0
  }

  /** The statuses a wait may ask for in vain. */
  function Patience(cfg: Config): nat {
    if cfg.attempts > 1 then cfg.attempts - 1 else 0
  }

  function Retries(s: State): nat {
    var n := Patience(s.cfg);
    match s.pc
    case WaitSealed(attempt) => n + if attempt <= n then n - attempt else 0
    case WaitUnsealed(attempt) => if attempt <= n then n - attempt else 0
    case pc => if Initializing(pc) then n else 0
  }

  /** Commands and statuses left, at most. */
  function Left(s: State): nat {
    Rank(s.pc) + Retries(s)
  }

  /** One command after the other, and both waits to their last attempt. */
  function LongestRun(cfg: Config): nat {
    27 + 2 * Patience(cfg)
  }

  // ------------------------------------------------------------ the condition

  predicate RootLive(s: State) {
    Root(s.volume) != "" && s.vault.Allows(Root(s.volume))
  }

  /** The access token is known to Vault, or can still be installed. */
  predicate Hopeful(s: State) {
    !s.vault.Initialized() || s.vault.Allows(s.cfg.token) || RootLive(s)
  }

  /** What is mounted at secret/ and transit/, if anything, is what belongs there. */
  predicate NoConflict(v: Vault) {
    && (SECRET in v.mounts ==> v.mounts[SECRET] == KV2)
    && (TRANSIT in v.mounts ==> v.mounts[TRANSIT].kind == "transit")
  }

  /** What the consumers of a durable Vault depend on. */
  predicate Provisioned(s: State) {
    && s.vault.Allows(s.cfg.token)
    && SECRET in s.vault.mounts && s.vault.mounts[SECRET] == KV2
    && s.vault.Mounted(TRANSIT, "transit")
    && s.cfg.key in s.vault.keys
    && s.volume.record.Some? && Root(s.volume) == ""
  }

  /** On the way to a provisioned state, at every program counter of a durable run. */
  predicate OnCourse(s: State) {
    && Inv(s)
    && s.cfg.mode == "durable" && Usable(s.cfg)
    && NoConflict(s.vault)
    && (match s.pc
        case WaitSealed(_) => Hopeful(s)
        case ReadInit => Hopeful(s)
        case RemovePgp => RootLive(s)
        case WaitUnsealed(_) => s.vault.Initialized() && Hopeful(s)
        case LookupAccess => Hopeful(s)
        case ReadRoot => RootLive(s)
        case Install(root) => s.vault.Allows(root)
        case LookupInstalled => s.vault.Allows(s.cfg.token)
        case Kv(kv) => kv.RereadKv? || kv.ReadOptions? ==> SECRET in s.vault.mounts
        case InTransit(t) => Transit.OnTrack(s.vault, s.cfg.token, s.cfg.key, t) && t.Rank() > 0
        case LookupRoot(root) => !s.vault.Allows(root)
        case Stopped => false
        case Failed(_) => false
        case _ => true)
  }

  predicate Underway(pc: Pc) {
    pc.WaitSealed? || pc.WaitUnsealed? || Initializing(pc) || Installing(pc)
  }

  lemma EarlyStepsStayOnCourse(s: State, e: Event)
    requires OnCourse(s) && Calm(s, e) && Underway(s.pc)
    requires Inv(Step(s, e))
    ensures OnCourse(Step(s, e)) && Left(Step(s, e)) < Left(s)
  {
    if s.pc.WaitSealed? || s.pc.WaitUnsealed? {
      assert Step(s, e) == s.(pc := Step(s, e).pc);
    } else if Initializing(s.pc) {
      assert Step(s, e) == StepInitialize(s, e);
    } else {
      assert Step(s, e) == StepInstall(s, e);
    }
  }

  lemma KvStepsStayOnCourse(s: State, e: Event)
    requires OnCourse(s) && e.Ok? && s.pc.Kv?
    requires Inv(StepKv(s, e))
    ensures OnCourse(StepKv(s, e)) && Left(StepKv(s, e)) < Left(s)
  {
  }

  lemma TransitStepsStayOnCourse(s: State, e: Event)
    requires OnCourse(s) && e.Ok? && s.pc.InTransit?
    requires Inv(StepTransit(s, e))
    ensures OnCourse(StepTransit(s, e)) && Left(StepTransit(s, e)) < Left(s)
  {
    Transit.StepOnTrack(s.cfg.token, s.cfg.key, s.vault, s.pc.transit);
    Transit.StepEstablishes(s.cfg.token, s.cfg.key, s.vault, s.pc.transit, Transit.Answered);
    var t := StepTransit(s, e);
    assert t.vault.mounts != s.vault.mounts ==> t.vault.mounts == s.vault.mounts[TRANSIT := TRANSIT_ENGINE];
  }

  lemma RetiringStaysOnCourse(s: State, e: Event)
    requires OnCourse(s) && e.Ok? && Retiring(s.pc)
    requires Inv(StepRetire(s, e))
    ensures OnCourse(StepRetire(s, e)) && Left(StepRetire(s, e)) < Left(s)
  {
    var t := StepRetire(s, e);
    assert t.vault.mounts == s.vault.mounts && t.cfg == s.cfg;
  }

  lemma {:induction false} StaysOnCourse(s: State, e: Event)
    requires OnCourse(s) && Calm(s, e)
    ensures OnCourse(Step(s, e))
    ensures if s.pc.Done? then Step(s, e) == s else Left(Step(s, e)) < Left(s)
  {
    StepKeepsInv(s, e);
    if Underway(s.pc) {
      EarlyStepsStayOnCourse(s, e);
    } else if s.pc.Kv? {
      KvStepsStayOnCourse(s, e);
    } else if s.pc.InTransit? {
      TransitStepsStayOnCourse(s, e);
    } else if Retiring(s.pc) {
      RetiringStaysOnCourse(s, e);
    }
  }

  lemma {:induction false} CalmRunStaysOnCourse(s: State, es: seq<Event>)
    requires OnCourse(s) && CalmRun(s, es)
    ensures OnCourse(Exec(s, es)) && AdmissibleRun(s, es)
    ensures Left(Exec(s, es)) + |es| <= Left(s) || Exec(s, es).pc.Done?
    decreases |es|
  {
    if es != [] {
      var before := es[..|es| - 1];
      CalmRunStaysOnCourse(s, before);
      StaysOnCourse(Exec(s, before), es[|es| - 1]);
    }
  }

  // ------------------------------------------------------------ a run without hope

  /** Nothing has moved, and the run can only fail. */
  predicate Refused(s: State, vault: Vault, volume: Volume) {
    && s.vault == vault && s.volume == volume && s.cfg.mode == "durable"
    && vault.Initialized() && !vault.Allows(s.cfg.token) && !RootLive(s)
    && (s.pc.WaitSealed? || s.pc.ReadInit? || s.pc.WaitUnsealed? || Installing(s.pc) || s.pc.Failed?)
    && (s.pc.Install? ==> !vault.Allows(s.pc.root))
  }

  lemma RefusedInstall(s: State, e: Event, vault: Vault, volume: Volume)
    requires Refused(s, vault, volume) && Installing(s.pc)
    ensures Refused(StepInstall(s, e), vault, volume)
    ensures e.Ok? ==> Left(StepInstall(s, e)) < Left(s) || StepInstall(s, e).pc.Failed?
  {
    assert StepInstall(s, e).vault == s.vault;
  }

  lemma RefusedStep(s: State, e: Event, vault: Vault, volume: Volume)
    requires Refused(s, vault, volume) && !e.Restart? && !e.Others?
    ensures Refused(Step(s, e), vault, volume)
    ensures Calm(s, e) ==> Left(Step(s, e)) < Left(s) || Step(s, e).pc.Failed?
  {
    if Installing(s.pc) {
      RefusedInstall(s, e, vault, volume);
      assert Step(s, e) == StepInstall(s, e);
    } else if s.pc.Failed? {
      assert Step(s, e) == s;
    } else {
      assert Step(s, e) == s.(pc := Step(s, e).pc);
    }
  }

  /** From any Vault and any volume: a durable run with a token Vault does not know,
      and no live root token on record to install it with, changes nothing, whatever
      the answers, and has failed once the server is up and it has had its answers. */
  lemma {:induction false} UnknownTokenRefused(s: State, cfg: Config, es: seq<Event>)
    requires s.vault.Initialized() && !s.vault.Allows(cfg.token) && !RootLive(s)
    requires cfg.mode == "durable" && OneRun(es)
    ensures var t := Exec(Step(s, Restart(cfg)), es);
            && Refused(t, s.vault, s.volume)
            && (CalmRun(Step(s, Restart(cfg)), es) ==> Left(t) + |es| <= LongestRun(cfg) || t.pc.Failed?)
    decreases |es|
  {
    if es != [] {
      var before := es[..|es| - 1];
      assert OneRun(before);
      UnknownTokenRefused(s, cfg, before);
      RefusedStep(Exec(Step(s, Restart(cfg)), before), es[|es| - 1], s.vault, s.volume);
    }
  }

  // ------------------------------------------------------------ exactly when it works

  lemma {:induction false} AnsweredIsOneRun(s: State, es: seq<Event>)
    requires AnsweredRun(s, es)
    ensures OneRun(es)
    decreases |es|
  {
    if es != [] { AnsweredIsOneRun(s, es[..|es| - 1]); }
  }

  /** From every state crashes, other runs and other people can leave, an
      uninterrupted run provisions Vault if and only if its token is known or still
      installable, neither mount point holds something else, and the server is up and
      unsealed in time for both waits. */
  lemma {:induction false} ProvisionsExactlyWhen(es: seq<Event>, cfg: Config, fs: seq<Event>)
    requires AdmissibleRun(ORIGIN, es) && Admissible(Exec(ORIGIN, es), Restart(cfg))
    requires Usable(cfg) && cfg.mode == "durable"
    requires AnsweredRun(Exec(ORIGIN, es + [Restart(cfg)]), fs) && |fs| >= LongestRun(cfg)
    ensures var s := Exec(ORIGIN, es + [Restart(cfg)]);
            var t := Exec(s, fs);
            && (t.pc.Done? <==> Hopeful(s) && NoConflict(s.vault) && CalmRun(s, fs))
            && (t.pc.Done? ==> Provisioned(t))
            && AdmissibleRun(ORIGIN, es + [Restart(cfg)])
            && AdmissibleRun(s, fs)
  {
    ExecStep(ORIGIN, es, Restart(cfg));
    Reachable(es + [Restart(cfg)]);
    var s := Exec(ORIGIN, es + [Restart(cfg)]);
    var t := Exec(s, fs);
    AnsweredIsAdmissible(s, fs);
    ExecKeepsInv(s, fs);
    KeysNeverRotate(s, fs);
    if !CalmRun(s, fs) {
      LateRunFails(s, fs);
    } else if Hopeful(s) && NoConflict(s.vault) {
      CalmRunStaysOnCourse(s, fs);
    } else if !Hopeful(s) {
      AnsweredIsOneRun(s, fs);
      UnknownTokenRefused(Exec(ORIGIN, es), cfg, fs);
    }
    ExecKeepsConfig(s, fs);
    assert t.pc.Done? ==> Provisioned(t);
  }

  lemma {:induction false} AnsweredIsAdmissible(s: State, es: seq<Event>)
    requires AnsweredRun(s, es)
    ensures AdmissibleRun(s, es)
    decreases |es|
  {
    if es != [] { AnsweredIsAdmissible(s, es[..|es| - 1]); }
  }

  lemma {:induction false} ExecKeepsConfig(s: State, es: seq<Event>)
    requires AnsweredRun(s, es)
    ensures Exec(s, es).cfg == s.cfg
    decreases |es|
  {
    if es != [] { ExecKeepsConfig(s, es[..|es| - 1]); }
  }

  // ------------------------------------------------------------ crash convergence

  /** Every run is configured with the same access token, and nobody interferes. */
  predicate SameToken(es: seq<Event>, token: Token) {
    forall i | 0 <= i < |es| :: !es[i].Others? && (es[i].Restart? ==> es[i].cfg.token == token)
  }

  predicate Faithful(s: State, token: Token) {
    && (s.pc.Stopped? || s.cfg.token == token)
    && s.seen <= {token}
    && NoConflict(s.vault)
  }

  /** The script itself never mounts the wrong thing. */
  lemma ScriptMountsWhatBelongs(s: State, e: Event)
    requires NoConflict(s.vault)
    ensures NoConflict(Command(s, e).vault)
  {
    if s.pc.InTransit? {
      var t := StepTransit(s, e);
      assert t.vault.mounts != s.vault.mounts ==> t.vault.mounts == s.vault.mounts[TRANSIT := TRANSIT_ENGINE];
    } else if s.pc.Kv? {
      var t := StepKv(s, e);
      assert t.vault.mounts != s.vault.mounts ==> t.vault.mounts == s.vault.mounts[SECRET := KV2];
    } else {
      assert Command(s, e).vault.mounts == s.vault.mounts;
    }
  }

  lemma StepStaysFaithful(s: State, e: Event, token: Token)
    requires Faithful(s, token) && !e.Others? && (e.Restart? ==> e.cfg.token == token)
    ensures Faithful(Step(s, e), token)
  {
    if !e.Restart? {
      ScriptMountsWhatBelongs(s, e);
      assert Step(s, e) == Command(s, e);
    }
  }

  lemma {:induction false} StaysFaithful(es: seq<Event>, token: Token)
    requires AdmissibleRun(ORIGIN, es) && SameToken(es, token)
    ensures Faithful(Exec(ORIGIN, es), token)
    decreases |es|
  {
    if es != [] {
      var before := es[..|es| - 1];
      assert forall i | 0 <= i < |before| :: before[i] == es[i];
      StaysFaithful(before, token);
      StepStaysFaithful(Exec(ORIGIN, before), es[|es| - 1], token);
    }
  }

  /** Initialized, with init.json never published. */
  predicate NeverPublished(s: State) {
    s.vault.Initialized() && s.volume.record.None?
  }

  /** From an empty volume with one token, after any number of runs cut at any
      command and failing as they please, one uninterrupted run on a server that comes up
      in time ends provisioned - except exactly where Vault was initialized and init.json never published, and
      there it fails and changes nothing. With truthful lookups of the root token,
      that token is then dead. */
  lemma {:induction false} CrashConvergence(es: seq<Event>, cfg: Config, fs: seq<Event>)
    requires AdmissibleRun(ORIGIN, es) && SameToken(es, cfg.token) && Admissible(Exec(ORIGIN, es), Restart(cfg))
    requires Usable(cfg) && cfg.mode == "durable"
    requires CalmRun(Exec(ORIGIN, es + [Restart(cfg)]), fs) && |fs| >= LongestRun(cfg)
    ensures var s := Exec(ORIGIN, es);
            var t := Exec(Exec(ORIGIN, es + [Restart(cfg)]), fs);
            if NeverPublished(s) then t.pc.Failed? && t.vault == s.vault && t.volume == s.volume
            else t.pc.Done? && Provisioned(t) && (RootLookupsTruthful(ORIGIN, es) ==> RootDead(t))
  {
    var s := Exec(ORIGIN, es);
    Reachable(es);
    StaysFaithful(es, cfg.token);
    ExecStep(ORIGIN, es, Restart(cfg));
    var s' := Exec(ORIGIN, es + [Restart(cfg)]);
    CalmIsAnswered(s', fs);
    ProvisionsExactlyWhen(es, cfg, fs);
    if NeverPublished(s) {
      StrandedHasNoHope(es, cfg);
      CalmRunWithoutHopeFails(s, cfg, fs);
    } else {
      assert Hopeful(s') by {
        if s.seen != {} { assert cfg.token in s.seen; }
      }
      if RootLookupsTruthful(ORIGIN, es) {
        RetiredAtTheEnd(es, cfg, fs);
      }
    }
  }

  /** A calm run without hope has failed by the end, with both stores as they were. */
  lemma CalmRunWithoutHopeFails(s: State, cfg: Config, fs: seq<Event>)
    requires s.vault.Initialized() && !s.vault.Allows(cfg.token) && !RootLive(s) && cfg.mode == "durable"
    requires CalmRun(Step(s, Restart(cfg)), fs) && |fs| >= LongestRun(cfg)
    ensures var t := Exec(Step(s, Restart(cfg)), fs);
            t.pc.Failed? && t.vault == s.vault && t.volume == s.volume
  {
    CalmIsAnswered(Step(s, Restart(cfg)), fs);
    AnsweredIsOneRun(Step(s, Restart(cfg)), fs);
    UnknownTokenRefused(s, cfg, fs);
  }

  lemma {:induction false} StrandedHasNoHope(es: seq<Event>, cfg: Config)
    requires AdmissibleRun(ORIGIN, es) && NeverPublished(Exec(ORIGIN, es)) && Admissible(Exec(ORIGIN, es), Restart(cfg))
    ensures !Exec(ORIGIN, es).vault.Allows(cfg.token) && !RootLive(Exec(ORIGIN, es))
  {
    Reachable(es);
  }

  lemma {:induction false} CalmLookupsTruthful(es: seq<Event>, fs: seq<Event>)
    requires CalmRun(Exec(ORIGIN, es), fs) && RootLookupsTruthful(ORIGIN, es)
    ensures RootLookupsTruthful(ORIGIN, es + fs)
    decreases |fs|
  {
    if fs == [] {
      assert es + fs == es;
    } else {
      var n := |fs| - 1;
      CalmLookupsTruthful(es, fs[..n]);
      ExecConcat(ORIGIN, es, fs[..n]);
      assert (es + fs)[..|es + fs| - 1] == es + fs[..n];
    }
  }

  lemma {:induction false} RetiredAtTheEnd(es: seq<Event>, cfg: Config, fs: seq<Event>)
    requires AdmissibleRun(ORIGIN, es) && RootLookupsTruthful(ORIGIN, es) && Admissible(Exec(ORIGIN, es), Restart(cfg))
    requires CalmRun(Exec(ORIGIN, es + [Restart(cfg)]), fs)
    ensures RetiredInOrder(Exec(Exec(ORIGIN, es + [Restart(cfg)]), fs))
  {
    var all := es + [Restart(cfg)];
    ExecStep(ORIGIN, es, Restart(cfg));
    assert all[..|all| - 1] == es;
    CalmLookupsTruthful(all, fs);
    CalmIsAnswered(Exec(ORIGIN, all), fs);
    AnsweredIsAdmissible(Exec(ORIGIN, all), fs);
    ExecConcat(ORIGIN, all, fs);
    ScrubbedMeansRevoked(all + fs);
  }

  // ------------------------------------------------------------ stranded for good

  /** Initialized, the response lost, and no run underway that could still publish it. */
  predicate Stranded(s: State, vault: Vault, volume: Volume) {
    && s.vault == vault && s.volume == volume && NeverPublished(s)
    && (forall t | t in vault.live :: IssuedRoot(vault, t))
    && (s.pc.Stopped? || !vault.Allows(s.cfg.token))
    && (s.pc.Stopped? || s.pc.WaitSealed? || s.pc.ReadInit? || s.pc.WaitUnsealed? || s.pc.LookupAccess?
        || s.pc.ReadRoot? || s.pc.Failed?
        || (s.pc.InTransit? && (s.pc.transit.ReadMount? || s.pc.transit.EnableEngine? || s.pc.transit.RereadMount?)))
  }

  lemma StrandedStep(s: State, e: Event, vault: Vault, volume: Volume)
    requires Stranded(s, vault, volume) && Admissible(s, e)
    ensures Stranded(Step(s, e), vault, volume)
  {
  }

  /** A Vault whose init response never became init.json is out of reach for every
      later run, in either mode, and every one of them leaves it and the volume alone. */
  lemma {:induction false} StrandedForGood(es: seq<Event>, cfg: Config, fs: seq<Event>)
    requires AdmissibleRun(ORIGIN, es) && NeverPublished(Exec(ORIGIN, es))
    requires AdmissibleRun(Exec(ORIGIN, es), [Restart(cfg)] + fs)
    ensures var s, t := Exec(ORIGIN, es), Exec(Exec(ORIGIN, es), [Restart(cfg)] + fs);
            t.vault == s.vault && t.volume == s.volume && !t.pc.Done?
  {
    StrandedFrom(es, cfg, fs);
  }

  lemma StrandedAtTheStart(s: State, cfg: Config)
    requires Inv(s) && NeverPublished(s) && Admissible(s, Restart(cfg))
    ensures Stranded(Step(s, Restart(cfg)), s.vault, s.volume)
  {
  }

  lemma {:induction false} StrandedFrom(es: seq<Event>, cfg: Config, fs: seq<Event>)
    requires AdmissibleRun(ORIGIN, es) && NeverPublished(Exec(ORIGIN, es))
    requires AdmissibleRun(Exec(ORIGIN, es), [Restart(cfg)] + fs)
    ensures Stranded(Exec(Exec(ORIGIN, es), [Restart(cfg)] + fs), Exec(ORIGIN, es).vault, Exec(ORIGIN, es).volume)
    decreases |fs|
  {
    hide Step, Stranded;
    var s := Exec(ORIGIN, es);
    var all := [Restart(cfg)] + fs;
    if fs == [] {
      Reachable(es);
      assert all == [] + [Restart(cfg)];
      ExecStep(s, [], Restart(cfg));
      StrandedAtTheStart(s, cfg);
    } else {
      var n := |fs| - 1;
      assert all == [Restart(cfg)] + fs[..n] + [fs[n]];
      ExecStep(s, [Restart(cfg)] + fs[..n], fs[n]);
      StrandedFrom(es, cfg, fs[..n]);
      StrandedStep(Exec(s, [Restart(cfg)] + fs[..n]), fs[n], s.vault, s.volume);
    }
  }

  // ------------------------------------------------------------ idempotence

  predicate Writes(pc: Pc) {
    || pc.StagePgp? || pc.OpenPartial? || pc.OperatorInit? || pc.Publish? || pc.RemovePgp?
    || pc.Install? || pc.Revoke? || pc.WriteScrubbed? || pc.PublishScrubbed?
    || (pc.Kv? && pc.kv.EnableKv?)
    || (pc.InTransit? && (pc.transit.EnableEngine? || pc.transit.CreateTheKey?))
  }

  /** A run over a provisioned Vault: both stores as they were. */
  predicate Settled(s: State, vault: Vault, volume: Volume) {
    && s.vault == vault && s.volume == volume
    && vault.Initialized() && s.cfg.mode == "durable" && Provisioned(s)
    && (s.pc.WaitSealed? || s.pc.WaitUnsealed? || s.pc.ReadInit? || s.pc.LookupAccess? || s.pc.ReadRoot?
        || s.pc.Kv? || s.pc.InTransit? || s.pc.ReadRootAgain? || s.pc.Done? || s.pc.Failed?)
  }

  /** On that run, as long as it is answered, nothing is even asked to change. */
  predicate OnlyReading(s: State) {
    && !Writes(s.pc) && !s.pc.Failed? && !s.pc.ReadRoot?
    && (s.pc.Kv? ==> s.pc.kv.ReadKv? || s.pc.kv.ReadOptions?)
    && (s.pc.InTransit? ==> s.pc.transit.ReadMount? || s.pc.transit.ReadKey?)
  }

  lemma SettledStep(s: State, e: Event, vault: Vault, volume: Volume)
    requires Settled(s, vault, volume) && !e.Restart? && !e.Others?
    ensures Settled(Step(s, e), vault, volume)
    ensures Calm(s, e) && OnlyReading(s) ==> OnlyReading(Step(s, e))
  {
  }

  /** A second provisioning has no effect: a run over a provisioned Vault leaves both
      stores alone even when its commands fail at will, and issues no write at all when
      the server comes up and answers. */
  lemma {:induction false} NothingRewritten(s: State, cfg: Config, es: seq<Event>)
    requires s.vault.Initialized() && Provisioned(s.(cfg := cfg)) && Usable(cfg) && cfg.mode == "durable"
    requires OneRun(es)
    ensures var t := Exec(Step(s, Restart(cfg)), es);
            && Settled(t, s.vault, s.volume)
            && (CalmRun(Step(s, Restart(cfg)), es) ==> OnlyReading(t))
    decreases |es|
  {
    if es != [] {
      var before := es[..|es| - 1];
      assert OneRun(before);
      NothingRewritten(s, cfg, before);
      SettledStep(Exec(Step(s, Restart(cfg)), before), es[|es| - 1], s.vault, s.volume);
    }
  }

  // ------------------------------------------------------------ runs exist

  /** The calm run a responsive server gives, for any fresh root token. */
  lemma {:induction false} CalmRunExists(s: State, n: nat, root: Token, response: Record) returns (es: seq<Event>)
    requires OnCourse(s) && root != "" && root != s.cfg.token && response.root == root
    ensures CalmRun(s, es) && |es| == n
    decreases n
  {
    if n == 0 {
      es := [];
    } else {
      var before := CalmRunExists(s, n - 1, root, response);
      CalmRunStaysOnCourse(s, before);
      CalmIsAnswered(s, before);
      ExecKeepsConfig(s, before);
      var t := Exec(s, before);
      var e := if t.pc.OperatorInit? then InitDone(root, response) else Ok;
      es := before + [e];
      assert es[..n - 1] == before;
      assert Calm(t, e);
    }
  }
}
