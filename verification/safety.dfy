/** What every step of the provisioning machine keeps, over every run, crash and
    restart from an empty volume, with commands failing as they please. */
module Safety {
  import opened Options
  import opened VaultModel
  import opened Provisioning
  import Transit

  // ------------------------------------------------------------ the invariant

  predicate IssuedRoot(v: Vault, root: string) {
    Some(root) == v.issued
  }

  /** Only the initial root token itself depends on it, and nothing lives before
      initialization. */
  predicate TokensInOrder(v: Vault) {
    && v.issued != Some("")
    && (!v.Initialized() ==> v.live == map[] && v.mounts == map[] && v.keys == map[])
    && (forall t | t in v.live && !IssuedRoot(v, t) :: forall a | a in v.live[t] :: !IssuedRoot(v, a))
  }

  /** There is nothing but the initial root token. */
  predicate HoldsNoData(s: State) {
    && (forall t | t in s.vault.live :: IssuedRoot(s.vault, t))
    && s.vault.mounts == map[] && s.vault.keys == map[] && s.seen == {}
  }

  /** The two stores belong together. */
  predicate StoresAgree(s: State) {
    && (s.volume.record.Some? ==> s.vault.Initialized() && s.volume.partial.None?)
    && (s.vault.Initialized() ==> s.volume.record.Some? || s.volume.partial.Some?)
    && (Root(s.volume) != "" ==> IssuedRoot(s.vault, Root(s.volume)))
    && (s.volume.record.None? ==> HoldsNoData(s))
    && (Root(s.volume) == "" ==> s.volume.scrubbed.None?)
  }

  /** Every token a run has positively looked up lives on, and a published record is
      never without a way in. */
  predicate AWayIn(s: State) {
    && (forall t | t in s.seen :: t in s.vault.live && !IssuedRoot(s.vault, t))
    && (s.volume.record.Some? ==> (Root(s.volume) != "" && Root(s.volume) in s.vault.live) || s.seen != {})
  }

  predicate Unborn(s: State) {
    !s.vault.Initialized() && s.volume.record.None?
  }

  /** The access token is installed, and the KV mount stands. */
  predicate Served(s: State) {
    s.cfg.mode == "durable" ==> s.cfg.token in s.seen && SECRET in s.vault.mounts && s.vault.mounts[SECRET] == KV2
  }

  predicate TransitServed(s: State) {
    s.vault.Mounted(TRANSIT, "transit") && s.cfg.key in s.vault.keys
  }

  predicate Recorded(s: State, root: Token) {
    root != "" && root == Root(s.volume)
  }

  /** What a run has established by the time it stands at its program counter. */
  predicate AtPc(s: State) {
    match s.pc
    case StagePgp => Unborn(s)
    case OpenPartial => Unborn(s)
    case OperatorInit => Unborn(s) && s.volume.partial == Some(EMPTY_RECORD)
    case Publish =>
      && s.volume.record.None? && s.volume.partial.Some?
      && IssuedRoot(s.vault, s.volume.partial.value.root)
      && s.volume.partial.value.root in s.vault.live
    case RemovePgp => s.volume.record.Some?
    case LookupAccess => s.vault.Initialized() && s.cfg.mode == "durable"
    case ReadRoot => s.vault.Initialized() && s.cfg.mode == "durable"
    case Install(root) => Recorded(s, root) && s.cfg.mode == "durable"
    case LookupInstalled => s.cfg.mode == "durable"
    case Kv(kv) =>
      && s.cfg.token in s.seen && s.cfg.mode == "durable"
      && (kv.ReadOptions? ==> s.vault.Mounted(SECRET, "kv"))
    case InTransit(t) => Served(s) && Transit.Established(s.vault, s.cfg.key, t)
    case ReadRootAgain => Served(s) && TransitServed(s) && s.cfg.mode == "durable"
    case Revoke(root) => Served(s) && TransitServed(s) && s.cfg.mode == "durable" && Recorded(s, root)
    case LookupRoot(root) => Served(s) && TransitServed(s) && s.cfg.mode == "durable" && Recorded(s, root)
    case WriteScrubbed => Served(s) && TransitServed(s) && s.cfg.mode == "durable" && Root(s.volume) != ""
    case PublishScrubbed =>
      && Served(s) && TransitServed(s) && s.cfg.mode == "durable" && Root(s.volume) != "" && s.volume.record.Some?
      && s.volume.scrubbed == Some(s.volume.record.value.(root := ""))
    case Done =>
      && Served(s) && TransitServed(s)
      && (s.cfg.mode == "durable" ==> s.volume.record.Some? && Root(s.volume) == "")
    case Failed(reason) =>
      && reason != RecordWithoutStorage
      && (reason == ResponseNeverRecorded ==> s.vault.Initialized() && s.volume.record.None?)
      && (reason == InitFailed ==> s.volume.record.None?)
      && (reason == NoRootLeft ==> s.volume.record.Some? && Root(s.volume) == "")
    case _ => true
  }

  predicate Inv(s: State) {
    && TokensInOrder(s.vault)
    && StoresAgree(s)
    && AWayIn(s)
    && AtPc(s)
    && (!s.pc.Stopped? ==> Some(s.cfg.token) != s.vault.issued)
  }

  // ------------------------------------------------------------ one step keeps it

  lemma WaitingKeepsInv(s: State, e: Event)
    requires Inv(s) && (s.pc.WaitSealed? || s.pc.WaitUnsealed?)
    ensures Inv(Command(s, e))
  {
  }

  /** The one command that initializes the server. */
  lemma OperatorInitKeepsInv(s: State, e: Event)
    requires Inv(s) && Admissible(s, e) && s.pc.OperatorInit?
    ensures Inv(StepInitialize(s, e))
  {
    assert Root(s.volume) == "";
  }

  /** Publishing by rename: the record appears whole, and the partial file is gone. */
  lemma PublishingKeepsInv(s: State, e: Event)
    requires Inv(s) && s.pc.Publish?
    ensures Inv(StepInitialize(s, e))
  {
  }

  lemma InitializingKeepsInv(s: State, e: Event)
    requires Inv(s) && Admissible(s, e) && Initializing(s.pc)
    ensures Inv(StepInitialize(s, e))
  {
    if s.pc.OperatorInit? {
      OperatorInitKeepsInv(s, e);
    } else if s.pc.Publish? {
      PublishingKeepsInv(s, e);
    } else {
      var t := StepInitialize(s, e);
      assert t.vault == s.vault && t.volume.record == s.volume.record;
    }
  }

  /** The access token is created as an orphan, so the initial root token can go. */
  lemma CreatingOrphanKeepsInv(s: State, e: Event)
    requires Inv(s) && s.pc.Install?
    ensures Inv(StepInstall(s, e))
  {
  }

  lemma InstallingKeepsInv(s: State, e: Event)
    requires Inv(s) && Installing(s.pc)
    ensures Inv(StepInstall(s, e))
  {
    if s.pc.Install? {
      CreatingOrphanKeepsInv(s, e);
    } else {
      var t := StepInstall(s, e);
      assert t.vault == s.vault && t.volume == s.volume;
      assert t.seen == s.seen || t.seen == s.seen + {s.cfg.token};
    }
  }

  /** Mounting an engine or creating a key touches neither tokens nor the volume; it
      takes a live token other than the initial root, so there is a record already. */
  lemma GrowingKeepsStores(s: State, v: Vault, pc: Pc)
    requires TokensInOrder(s.vault) && StoresAgree(s) && AWayIn(s)
    requires v.live == s.vault.live && v.issued == s.vault.issued
    requires v.mounts != s.vault.mounts || v.keys != s.vault.keys ==>
               s.cfg.token in s.vault.live && !IssuedRoot(s.vault, s.cfg.token)
    ensures var t := s.(vault := v, pc := pc);
            TokensInOrder(t.vault) && StoresAgree(t) && AWayIn(t)
  {
  }

  lemma EnablingKvKeepsInv(s: State, e: Event)
    requires Inv(s) && s.pc == Kv(EnableKv)
    ensures Inv(StepKv(s, e))
  {
    var t := StepKv(s, e);
    assert t == s.(vault := t.vault, pc := Kv(RereadKv));
    GrowingKeepsStores(s, t.vault, t.pc);
  }

  lemma KvKeepsInv(s: State, e: Event)
    requires Inv(s) && s.pc.Kv?
    ensures Inv(StepKv(s, e))
  {
    if s.pc.kv.EnableKv? {
      EnablingKvKeepsInv(s, e);
    } else {
      var t := StepKv(s, e);
      assert t == s.(pc := t.pc);
    }
  }

  lemma TransitKeepsInv(s: State, e: Event)
    requires Inv(s) && s.pc.InTransit?
    ensures Inv(StepTransit(s, e))
  {
    Transit.StepEstablishes(s.cfg.token, s.cfg.key, s.vault, s.pc.transit, Answer(e));
    var t := StepTransit(s, e);
    assert t == s.(vault := t.vault, pc := t.pc);
    GrowingKeepsStores(s, t.vault, t.pc);
    assert Served(t);
  }

  predicate Retiring(pc: Pc) {
    pc.ReadRootAgain? || pc.Revoke? || pc.LookupRoot? || pc.WriteScrubbed? || pc.PublishScrubbed?
  }

  /** Revoking the initial root token leaves every token but it alive. */
  lemma RevokingKeepsInv(s: State, e: Event)
    requires Inv(s) && s.pc.Revoke?
    ensures Inv(StepRetire(s, e))
  {
  }

  lemma ScrubbingKeepsInv(s: State, e: Event)
    requires Inv(s) && (s.pc.WriteScrubbed? || s.pc.PublishScrubbed?)
    ensures Inv(StepRetire(s, e))
  {
  }

  lemma RetiringKeepsInv(s: State, e: Event)
    requires Inv(s) && Retiring(s.pc)
    ensures Inv(StepRetire(s, e))
  {
    if s.pc.Revoke? {
      RevokingKeepsInv(s, e);
    } else if s.pc.WriteScrubbed? || s.pc.PublishScrubbed? {
      ScrubbingKeepsInv(s, e);
    }
  }

  lemma OutsideKeepsInv(s: State, auth: Token, w: Vault)
    requires Inv(s)
    ensures Inv(Outside(s, auth, w))
  {
  }

  lemma {:induction false} StepKeepsInv(s: State, e: Event)
    requires Inv(s) && Admissible(s, e)
    ensures Inv(Step(s, e))
  {
    if e.Restart? {
    } else if e.Others? {
      OutsideKeepsInv(s, e.auth, e.vault);
    } else if s.pc.WaitSealed? || s.pc.WaitUnsealed? {
      WaitingKeepsInv(s, e);
    } else if Initializing(s.pc) {
      InitializingKeepsInv(s, e);
    } else if Installing(s.pc) {
      InstallingKeepsInv(s, e);
    } else if s.pc.Kv? {
      KvKeepsInv(s, e);
    } else if s.pc.InTransit? {
      TransitKeepsInv(s, e);
    } else if Retiring(s.pc) {
      RetiringKeepsInv(s, e);
    }
  }

  lemma {:induction false} ExecKeepsInv(s: State, es: seq<Event>)
    requires Inv(s) && AdmissibleRun(s, es)
    ensures Inv(Exec(s, es))
    decreases |es|
  {
    if es != [] {
      var before := es[..|es| - 1];
      ExecKeepsInv(s, before);
      StepKeepsInv(Exec(s, before), es[|es| - 1]);
    }
  }

  lemma {:induction false} Reachable(es: seq<Event>)
    requires AdmissibleRun(ORIGIN, es)
    ensures Inv(Exec(ORIGIN, es))
  {
    ExecKeepsInv(ORIGIN, es);
  }

  /** A durable run that succeeds leaves init.json, without a root token, and neither a
      partial nor a scrubbed file beside it. */
  lemma {:induction false} OnlyTheRecordIsLeft(es: seq<Event>)
    requires AdmissibleRun(ORIGIN, es)
    ensures var t := Exec(ORIGIN, es);
            t.pc.Done? && t.cfg.mode == "durable" ==>
              t.volume.record.Some? && Root(t.volume) == "" && t.volume.partial.None? && t.volume.scrubbed.None?
  {
    hide Exec, AdmissibleRun;
    Reachable(es);
  }

  // ------------------------------------------------------------ what nobody undoes

  lemma StepReplacesNothing(s: State, e: Event)
    ensures KeysKept(s.vault, Step(s, e).vault) && MountsKept(s.vault, Step(s, e).vault)
    ensures s.vault.Initialized() ==> Step(s, e).vault.issued == s.vault.issued
  {
  }

  /** From any state at all, in any mode and through any crashes: a transit key keeps
      its type and material, a mount its kind, and Vault is initialized only once. */
  lemma {:induction false} KeysNeverRotate(s: State, es: seq<Event>)
    ensures KeysKept(s.vault, Exec(s, es).vault) && MountsKept(s.vault, Exec(s, es).vault)
    ensures s.vault.Initialized() ==> Exec(s, es).vault.issued == s.vault.issued
    decreases |es|
  {
    if es != [] {
      var before := es[..|es| - 1];
      KeysNeverRotate(s, before);
      StepReplacesNothing(Exec(s, before), es[|es| - 1]);
    }
  }

  // ------------------------------------------------------------ never locked out

  /** Once init.json is published, the root token it records is live or a token the
      script has positively looked up is; commands may fail as they please. */
  lemma {:induction false} NeverLockedOut(es: seq<Event>)
    requires AdmissibleRun(ORIGIN, es)
    ensures var s := Exec(ORIGIN, es);
            s.volume.record.Some? ==>
              || (Root(s.volume) != "" && s.vault.Allows(Root(s.volume)))
              || exists t :: t in s.seen && s.vault.Allows(t)
  {
    Reachable(es);
    var s := Exec(ORIGIN, es);
    if s.seen != {} {
      var t :| t in s.seen;
      assert s.vault.Allows(t);
    }
  }

  // ------------------------------------------------------------ honest diagnosis

  /** Not one of the states a history went through held any data. */
  ghost predicate NothingEverCreated(es: seq<Event>) {
    forall i | 0 <= i <= |es| :: HoldsNoData(Exec(ORIGIN, es[..i]))
  }

  lemma RecordStays(s: State, e: Event)
    requires s.volume.record.Some?
    ensures Step(s, e).volume.record.Some?
  {
    if !e.Restart? && !e.Others? && !s.pc.Publish? && !s.pc.PublishScrubbed? {
      RecordLeftAlone(s, e);
    }
  }

  lemma {:induction false} UnrecordedMeansNothingCreated(es: seq<Event>)
    requires AdmissibleRun(ORIGIN, es) && Exec(ORIGIN, es).volume.record.None?
    ensures NothingEverCreated(es)
    decreases |es|
  {
    Reachable(es);
    assert es[..|es|] == es;
    if es != [] {
      var before := es[..|es| - 1];
      if Exec(ORIGIN, before).volume.record.Some? {
        RecordStays(Exec(ORIGIN, before), es[|es| - 1]);
      }
      UnrecordedMeansNothingCreated(before);
      forall i | 0 <= i < |es| ensures HoldsNoData(Exec(ORIGIN, es[..i])) {
        assert es[..i] == before[..i];
      }
    }
  }

  /** Both refusals of install_access_token, and the failure of operator init, say
      what is the case: "holds no data yet" only when nothing was ever created, "the
      token was installed" only when one was, "the root revoked" exactly unless a run
      published a vain scrub; the refusal to initialize over a record is never reached
      from an empty volume. */
  lemma {:induction false} DiagnosisHonest(es: seq<Event>)
    requires AdmissibleRun(ORIGIN, es)
    ensures var s := Exec(ORIGIN, es);
            && Honest(s)
            && (s.pc == Failed(ResponseNeverRecorded) || s.pc == Failed(InitFailed) ==> NothingEverCreated(es))
            && (s.pc == Failed(NoRootLeft) ==> (RootDead(s) <==> !PublishedAVainScrub(ORIGIN, es)))
  {
    hide Exec, HoldsNoData, NothingEverCreated, PublishedAVainScrub;
    Reachable(es);
    InvIsHonest(Exec(ORIGIN, es));
    ScrubsALiveRootExactlyWhen(es);
    if Exec(ORIGIN, es).volume.record.None? {
      UnrecordedMeansNothingCreated(es);
    }
  }

  lemma InvIsHonest(s: State)
    requires Inv(s)
    ensures Honest(s)
    ensures s.pc == Failed(ResponseNeverRecorded) || s.pc == Failed(InitFailed) ==> s.volume.record.None?
    ensures s.pc == Failed(NoRootLeft) ==> s.volume.record.Some?
  {
  }

  /** What a run says when it fails is so. */
  predicate Honest(s: State) {
    && (s.pc == Failed(ResponseNeverRecorded) ==> s.vault.Initialized() && HoldsNoData(s))
    && (s.pc == Failed(InitFailed) ==> HoldsNoData(s))
    && (s.pc == Failed(NoRootLeft) ==> SomebodyCanLogIn(s) && Root(s.volume) == "")
    && s.pc != Failed(RecordWithoutStorage)
    && !(s.volume.record.Some? && s.volume.partial.Some?)
  }

  predicate SomebodyCanLogIn(s: State) {
    s.seen != {} && forall t | t in s.seen :: s.vault.Allows(t)
  }

  /** A run that finds a record without storage: where it stands, nothing has moved. */
  predicate Refusing(s: State, vault: Vault, volume: Volume) {
    && s.vault == vault && s.volume == volume && !vault.Initialized() && volume.record.Some?
    && (s.pc.WaitSealed? || s.pc.ReadInit? || s.pc.Failed?)
  }

  predicate OneRun(es: seq<Event>) {
    forall i | 0 <= i < |es| :: !es[i].Restart? && !es[i].Others?
  }

  /** The run has read sys/init. */
  ghost predicate InitRead(s: State, es: seq<Event>)
    decreases |es|
  {
    es != [] && (InitRead(s, es[..|es| - 1]) || (Exec(s, es[..|es| - 1]).pc.ReadInit? && es[|es| - 1].Ok?))
  }

  lemma RefusingStep(s: State, e: Event)
    requires Refusing(s, s.vault, s.volume) && !e.Restart? && !e.Others?
    ensures Refusing(Step(s, e), s.vault, s.volume)
    ensures Step(s, e).pc == Failed(RecordWithoutStorage) <==> s.pc == Failed(RecordWithoutStorage) || (s.pc.ReadInit? && e.Ok?)
  {
    if s.pc.WaitSealed? {
      assert Step(s, e) == StepWaitSealed(s, e);
    } else if s.pc.ReadInit? {
      assert Step(s, e) == StepInitialize(s, e);
    } else {
      assert Step(s, e) == s;
    }
  }

  /** From every Vault and every volume: a durable run that meets uninitialized
      storage and an init.json changes nothing; it fails with that refusal as soon as it
      has read sys/init, and only then, and otherwise can only fail earlier. */
  lemma {:induction false} NeverInitializesOverARecord(s: State, cfg: Config, es: seq<Event>)
    requires !s.vault.Initialized() && s.volume.record.Some?
    requires cfg.mode == "durable" && OneRun(es)
    ensures var t := Exec(Step(s, Restart(cfg)), es);
            && Refusing(t, s.vault, s.volume)
            && (t.pc == Failed(RecordWithoutStorage) <==> InitRead(Step(s, Restart(cfg)), es))
    decreases |es|
  {
    if es != [] {
      var before := es[..|es| - 1];
      assert OneRun(before);
      NeverInitializesOverARecord(s, cfg, before);
      RefusingStep(Exec(Step(s, Restart(cfg)), before), es[|es| - 1]);
    }
  }

  // ------------------------------------------------------------ scrubbed means revoked

  /** Lookups of the initial root token are answered: they fail only when it is dead. */
  ghost predicate RootLookupsTruthful(s: State, es: seq<Event>)
    decreases |es|
  {
    es == [] ||
    var before, e := es[..|es| - 1], es[|es| - 1];
    && RootLookupsTruthful(s, before)
    && (Exec(s, before).pc.LookupRoot? ==> e.Ok? || e.Restart? || e.Others?)
  }

  predicate RootDead(s: State) {
    s.vault.issued.Some? ==> s.vault.issued.value !in s.vault.live
  }

  predicate RetiredInOrder(s: State) {
    && (s.volume.record.Some? && Root(s.volume) == "" ==> RootDead(s))
    && (s.pc.WriteScrubbed? || s.pc.PublishScrubbed? ==> RootDead(s))
  }

  lemma DeadStaysDead(s: State, e: Event)
    requires Inv(s) && s.vault.Initialized() && RootDead(s)
    requires !e.Restart? && !e.Others?
    ensures RootDead(Command(s, e))
  {
    if s.pc.InTransit? {
      Transit.StepEstablishes(s.cfg.token, s.cfg.key, s.vault, s.pc.transit, Answer(e));
    }
  }

  /** Outside publishing and retiring, commands leave the record alone. */
  lemma RecordLeftAlone(s: State, e: Event)
    requires !s.pc.Publish? && !s.pc.PublishScrubbed?
    ensures Command(s, e).volume.record == s.volume.record
    ensures Command(s, e).pc.WriteScrubbed? ==> s.pc.LookupRoot?
    ensures Command(s, e).pc.PublishScrubbed? ==> s.pc.WriteScrubbed?
  {
    if s.pc.WaitSealed? {
      assert Command(s, e) == StepWaitSealed(s, e);
    } else if s.pc.WaitUnsealed? {
      assert Command(s, e) == StepWaitUnsealed(s, e);
    } else if Initializing(s.pc) {
      assert Command(s, e) == StepInitialize(s, e);
    } else if Installing(s.pc) {
      assert Command(s, e) == StepInstall(s, e);
    } else if s.pc.Kv? {
      assert Command(s, e) == StepKv(s, e);
    } else if s.pc.InTransit? {
      assert Command(s, e) == StepTransit(s, e);
    } else {
      assert Command(s, e) == StepRetire(s, e);
    }
  }

  lemma PublishingKeepsRetired(s: State, e: Event)
    requires Inv(s) && s.pc.Publish?
    ensures RetiredInOrder(StepInitialize(s, e))
  {
  }

  lemma {:induction false} CommandKeepsRetired(s: State, e: Event)
    requires Inv(s) && RetiredInOrder(s)
    requires !e.Restart? && !e.Others?
    requires s.pc.LookupRoot? ==> e.Ok?
    ensures RetiredInOrder(Command(s, e))
  {
    if s.vault.Initialized() && RootDead(s) {
      DeadStaysDead(s, e);
    }
    if s.pc.Publish? {
      PublishingKeepsRetired(s, e);
    } else if s.pc.PublishScrubbed? {
      assert Command(s, e) == StepRetire(s, e);
    } else {
      RecordLeftAlone(s, e);
    }
  }

  lemma {:induction false} ScrubbedMeansRevoked(es: seq<Event>)
    requires AdmissibleRun(ORIGIN, es) && RootLookupsTruthful(ORIGIN, es)
    ensures RetiredInOrder(Exec(ORIGIN, es))
    decreases |es|
  {
    if es != [] {
      var before, e := es[..|es| - 1], es[|es| - 1];
      ScrubbedMeansRevoked(before);
      Reachable(before);
      if !e.Restart? && !e.Others? {
        CommandKeepsRetired(Exec(ORIGIN, before), e);
      }
    }
  }

  // ------------------------------------------------------------ scrubbed over a live root

  /** The record was published and holds no root token, and yet the token is live. */
  predicate ScrubbedOverALiveRoot(s: State) {
    s.volume.record.Some? && Root(s.volume) == "" && !RootDead(s)
  }

  /** The run under way has looked a live root token up and got no answer. */
  ghost predicate LookedUpInVain(s: State, es: seq<Event>)
    decreases |es|
  {
    es != [] &&
    var before, e := es[..|es| - 1], es[|es| - 1];
    var t := Exec(s, before);
    !e.Restart? && if t.pc.LookupRoot? && !e.Others? then t.vault.Allows(t.pc.root) && !e.Ok? else LookedUpInVain(s, before)
  }

  /** Some run did so and went on to publish its scrub. */
  ghost predicate PublishedAVainScrub(s: State, es: seq<Event>)
    decreases |es|
  {
    es != [] &&
    var before, e := es[..|es| - 1], es[|es| - 1];
    || PublishedAVainScrub(s, before)
    || (LookedUpInVain(s, before) && Exec(s, before).pc.PublishScrubbed? && e.Ok?)
  }

  predicate Scrubbing(pc: Pc) {
    pc.WriteScrubbed? || pc.PublishScrubbed?
  }

  /** Only initializing and revoking touch the initial root token. */
  lemma RootLeftAlone(s: State, e: Event)
    requires Inv(s) && !e.Restart? && !e.Others?
    requires !s.pc.OperatorInit? && !s.pc.Revoke?
    ensures RootDead(Command(s, e)) <==> RootDead(s)
  {
    if s.pc.WaitSealed? {
      assert Command(s, e) == StepWaitSealed(s, e);
    } else if s.pc.WaitUnsealed? {
      assert Command(s, e) == StepWaitUnsealed(s, e);
    } else if Initializing(s.pc) {
      assert Command(s, e) == StepInitialize(s, e) && Command(s, e).vault == s.vault;
    } else if Installing(s.pc) {
      assert Command(s, e) == StepInstall(s, e);
    } else if s.pc.Kv? {
      assert Command(s, e) == StepKv(s, e);
    } else if s.pc.InTransit? {
      assert Command(s, e) == StepTransit(s, e);
    } else {
      assert Command(s, e) == StepRetire(s, e);
    }
  }

  lemma OutsideLeavesRoot(s: State, auth: Token, w: Vault)
    ensures RootDead(Outside(s, auth, w)) <==> RootDead(s)
  {
  }

  lemma OutsideTracksScrub(s: State, auth: Token, w: Vault)
    ensures var t := Outside(s, auth, w);
            t.pc == s.pc && (RootDead(t) <==> RootDead(s)) && (ScrubbedOverALiveRoot(t) <==> ScrubbedOverALiveRoot(s))
  {
    OutsideLeavesRoot(s, auth, w);
  }

  lemma RetiringTracksScrub(s: State, e: Event, vain: bool)
    requires Inv(s) && Retiring(s.pc) && (Scrubbing(s.pc) ==> (vain <==> !RootDead(s)))
    ensures var t := StepRetire(s, e);
            && (Scrubbing(t.pc) ==> ((if s.pc.LookupRoot? then s.vault.Allows(s.pc.root) && !e.Ok? else vain) <==> !RootDead(t)))
            && (ScrubbedOverALiveRoot(t) <==> ScrubbedOverALiveRoot(s) || (vain && s.pc.PublishScrubbed? && e.Ok?))
  {
  }

  lemma CommandTracksScrub(s: State, e: Event, vain: bool)
    requires Inv(s) && Admissible(s, e) && !e.Restart? && !e.Others? && (Scrubbing(s.pc) ==> (vain <==> !RootDead(s)))
    ensures var t := Command(s, e);
            && (Scrubbing(t.pc) ==> ((if s.pc.LookupRoot? then s.vault.Allows(s.pc.root) && !e.Ok? else vain) <==> !RootDead(t)))
            && (ScrubbedOverALiveRoot(t) <==> ScrubbedOverALiveRoot(s) || (vain && s.pc.PublishScrubbed? && e.Ok?))
  {
    if Retiring(s.pc) {
      RetiringTracksScrub(s, e, vain);
      assert Command(s, e) == StepRetire(s, e);
    } else {
      if s.pc.Publish? {
        PublishesUnscrubbed(s, e);
      } else {
        RecordLeftAlone(s, e);
        if !s.pc.OperatorInit? { RootLeftAlone(s, e); }
      }
    }
  }

  lemma PublishesUnscrubbed(s: State, e: Event)
    requires Inv(s) && s.pc.Publish?
    ensures !ScrubbedOverALiveRoot(s) && !ScrubbedOverALiveRoot(Command(s, e)) && !Scrubbing(Command(s, e).pc)
  {
  }

  /** Over every history, with anything failing: the record stands scrubbed over a live
      root token if and only if some run looked the live token up, got no answer, and
      went on to publish its scrub. */
  lemma {:induction false} ScrubsALiveRootExactlyWhen(es: seq<Event>)
    requires AdmissibleRun(ORIGIN, es)
    ensures ScrubbedOverALiveRoot(Exec(ORIGIN, es)) <==> PublishedAVainScrub(ORIGIN, es)
    ensures Scrubbing(Exec(ORIGIN, es).pc) ==> (LookedUpInVain(ORIGIN, es) <==> !RootDead(Exec(ORIGIN, es)))
    decreases |es|
  {
    hide Inv, Command, Outside;
    if es != [] {
      var before, e := es[..|es| - 1], es[|es| - 1];
      ScrubsALiveRootExactlyWhen(before);
      Reachable(before);
      var s := Exec(ORIGIN, before);
      if e.Others? {
        OutsideTracksScrub(s, e.auth, e.vault);
      } else if !e.Restart? {
        CommandTracksScrub(s, e, LookedUpInVain(ORIGIN, before));
      }
    }
  }

  /** And it takes only that: from any such lookup, two answered commands do it. */
  lemma VainLookupScrubs(s: State, e: Event)
    requires Inv(s) && s.pc.LookupRoot? && !e.Restart? && !e.Others?
    ensures var t := Step(Step(Step(s, e), Ok), Ok);
            (t.pc.Done? && Root(t.volume) == "" && s.pc.root in t.vault.live) <==> (s.pc.root in s.vault.live && !e.Ok?)
  {
    var t := Step(s, e);
    if s.pc.root in s.vault.live && e.Ok? {
      assert t == s.(pc := Failed(RootNotRevoked));
      assert Step(t, Ok) == t;
    } else {
      assert t == s.(pc := WriteScrubbed);
      ScrubsTheRecord(t);
    }
  }

  /** The last two commands of an uninterrupted retirement. */
  lemma ScrubsTheRecord(s: State)
    requires s.pc.WriteScrubbed? && s.volume.record.Some?
    ensures var t := Step(Step(s, Ok), Ok);
            t.pc.Done? && Root(t.volume) == "" && t.vault == s.vault
  {
  }
}
