/** Single commands of the provisioning script, in words: which arguments it takes, what
    ends its waits, which failures it passes over, and what becomes of recovery.pgp. */
module Commands {
  import opened Options
  import opened VaultModel
  import opened Provisioning
  import opened Safety
  import Transit

  // ------------------------------------------------------------ usage

  /** What a run is given: a mode, a key name, and a token that is not empty and made of
      letters, digits, dots, underscores and hyphens. */
  predicate GoodArguments(cfg: Config) {
    && cfg.key != "" && (cfg.mode == "dev" || cfg.mode == "durable") && cfg.token != ""
    && forall i | 0 <= i < |cfg.token| ::
         var c := cfg.token[i];
         'A' <= c <= 'Z' || 'a' <= c <= 'z' || '0' <= c <= '9' || c in "._-"
  }

  /** A run is refused at once if and only if it is not given that; otherwise it begins
      with the wait of its mode. */
  lemma RefusedExactlyWhen(s: State, cfg: Config)
    ensures Step(s, Restart(cfg)).pc == Failed(BadUsage) <==> !GoodArguments(cfg)
    ensures GoodArguments(cfg) ==>
              Step(s, Restart(cfg)).pc == if cfg.mode == "dev" then WaitUnsealed(0) else WaitSealed(0)
    ensures Step(s, Restart(cfg)).vault == s.vault && Step(s, Restart(cfg)).volume == s.volume
  {
  }

  // ------------------------------------------------------------ the waits

  /** The first wait is for a server that answers at all, sealed or not; the second for
      one that is initialized and unsealed. */
  lemma WaitsEndExactlyWhen(s: State, e: Event)
    requires !e.Restart? && !e.Others?
    ensures s.pc.WaitSealed? ==> (Step(s, e).pc == ReadInit <==> e.Ok? || e.Sealed?)
    ensures s.pc.WaitUnsealed? ==>
              (Step(s, e).pc.LookupAccess? || Step(s, e).pc.InTransit? <==> e.Ok? && s.vault.issued.Some?)
  {
  }

  // ------------------------------------------------------------ failures

  /** Commands whose failure ends the run. The others are a lookup, a read or a write
      that something later makes up for, or that is read back. */
  predicate MustWork(pc: Pc) {
    || pc.ReadInit? || pc.StagePgp? || pc.OpenPartial? || pc.OperatorInit? || pc.Publish? || pc.RemovePgp?
    || pc.ReadRoot? || pc.LookupInstalled?
    || (pc.Kv? && (pc.kv.RereadKv? || pc.kv.ReadOptions?))
    || (pc.InTransit? && (pc.transit.RereadMount? || pc.transit.RereadKey?))
    || pc.ReadRootAgain? || pc.WriteScrubbed? || pc.PublishScrubbed?
  }

  predicate Waits(pc: Pc) {
    pc.WaitSealed? || pc.WaitUnsealed?
  }

  predicate Midway(pc: Pc) {
    !pc.Terminal() && !Waits(pc) && (pc.InTransit? ==> !pc.transit.Finished())
  }

  /** A command without an answer ends the run if and only if it must work. */
  lemma FatalExactlyWhen(s: State, e: Event)
    requires Midway(s.pc) && (e.Lost? || e.Sealed?)
    ensures Step(s, e).pc.Failed? <==> MustWork(s.pc)
  {
    if Initializing(s.pc) {
      assert Step(s, e) == StepInitialize(s, e);
    } else if Installing(s.pc) {
      assert Step(s, e) == StepInstall(s, e);
    } else if s.pc.Kv? {
      assert Step(s, e) == StepKv(s, e);
    } else if s.pc.InTransit? {
      assert Step(s, e) == StepTransit(s, e);
    } else {
      assert Step(s, e) == StepRetire(s, e);
    }
  }

  predicate Worked(pc: Pc, e: Event) {
    MustWork(pc) ==> if pc.OperatorInit? then e.InitDone? else e.Ok?
  }

  ghost predicate AllWorked(s: State, es: seq<Event>)
    decreases |es|
  {
    es == [] || (AllWorked(s, es[..|es| - 1]) && Worked(Exec(s, es[..|es| - 1]).pc, es[|es| - 1]))
  }

  lemma NotWorked(s: State, e: Event)
    requires !e.Restart? && !e.Others? && (s.pc.Failed? || !Worked(s.pc, e))
    ensures Step(s, e).pc.Failed?
  {
    if Initializing(s.pc) {
      assert Step(s, e) == StepInitialize(s, e);
    } else if Installing(s.pc) {
      assert Step(s, e) == StepInstall(s, e);
    } else if s.pc.Kv? {
      assert Step(s, e) == StepKv(s, e);
    } else if s.pc.InTransit? {
      assert Step(s, e) == StepTransit(s, e);
    } else if Retiring(s.pc) {
      assert Step(s, e) == StepRetire(s, e);
    } else {
      assert Step(s, e) == s;
    }
  }

  /** From every state: a run in which a command that must work did not has failed. */
  lemma {:induction false} ErrorsFail(s: State, es: seq<Event>)
    requires OneRun(es)
    ensures AllWorked(s, es) || Exec(s, es).pc.Failed?
    decreases |es|
  {
    hide Step, Worked;
    if es != [] {
      assert OneRun(es[..|es| - 1]);
      ErrorsFail(s, es[..|es| - 1]);
      if !AllWorked(s, es) {
        NotWorked(Exec(s, es[..|es| - 1]), es[|es| - 1]);
      }
    }
  }

  // ------------------------------------------------------------ recovery.pgp

  /** Where a run that began on empty storage has the key file staged, and where it is
      gone. */
  predicate PgpInOrder(s: State, pgp: bool) {
    match s.pc
    case Failed(_) => true
    case WaitSealed(_) => !s.vault.Initialized() && s.volume.pgp == pgp
    case ReadInit => !s.vault.Initialized() && s.volume.pgp == pgp
    case StagePgp => !s.vault.Initialized() && s.volume.pgp == pgp
    case OpenPartial => s.volume.pgp == (pgp || s.cfg.pgp)
    case OperatorInit => s.volume.pgp == (pgp || s.cfg.pgp)
    case Publish => s.volume.pgp == (pgp || s.cfg.pgp)
    case RemovePgp => true
    case _ => !s.volume.pgp
  }

  lemma PgpInitializing(s: State, e: Event, pgp: bool)
    requires PgpInOrder(s, pgp) && Initializing(s.pc)
    ensures PgpInOrder(StepInitialize(s, e), pgp)
  {
  }

  lemma PgpRetiring(s: State, e: Event, pgp: bool)
    requires PgpInOrder(s, pgp) && Retiring(s.pc)
    ensures PgpInOrder(StepRetire(s, e), pgp)
  {
    assert StepRetire(s, e).volume.pgp == s.volume.pgp;
  }

  lemma PgpWaiting(s: State, e: Event, pgp: bool)
    requires PgpInOrder(s, pgp) && Waits(s.pc) && !e.Restart? && !e.Others?
    ensures PgpInOrder(Step(s, e), pgp)
  {
    assert Step(s, e) == s.(pc := Step(s, e).pc);
  }

  predicate Between(pc: Pc) {
    Installing(pc) || pc.Kv? || pc.InTransit?
  }

  lemma PgpBetween(s: State, e: Event, pgp: bool)
    requires PgpInOrder(s, pgp) && Between(s.pc) && s.cfg.mode == "durable" && !e.Restart? && !e.Others?
    ensures PgpInOrder(Step(s, e), pgp)
  {
    assert Step(s, e).volume == s.volume;
    BetweenGoesOn(s, e);
  }

  lemma BetweenGoesOn(s: State, e: Event)
    requires Between(s.pc) && s.cfg.mode == "durable" && !e.Restart? && !e.Others?
    ensures Between(Step(s, e).pc) || Step(s, e).pc.Failed? || Step(s, e).pc.ReadRootAgain?
  {
    if Installing(s.pc) {
      assert Step(s, e) == StepInstall(s, e);
    } else if s.pc.Kv? {
      assert Step(s, e) == StepKv(s, e);
    } else {
      assert Step(s, e) == StepTransit(s, e);
    }
  }

  lemma PgpStep(s: State, e: Event, pgp: bool)
    requires PgpInOrder(s, pgp) && s.cfg.mode == "durable" && !e.Restart? && !e.Others? && !s.pc.Stopped?
    ensures PgpInOrder(Step(s, e), pgp)
  {
    hide PgpInOrder;
    if Waits(s.pc) {
      PgpWaiting(s, e, pgp);
    } else if Initializing(s.pc) {
      PgpInitializing(s, e, pgp);
      assert Step(s, e) == StepInitialize(s, e);
    } else if Between(s.pc) {
      PgpBetween(s, e, pgp);
    } else if Retiring(s.pc) {
      PgpRetiring(s, e, pgp);
      assert Step(s, e) == StepRetire(s, e);
    } else {
      assert Step(s, e) == s;
    }
  }

  lemma SameConfig(s: State, e: Event)
    requires !e.Restart? && !s.pc.Stopped?
    ensures Step(s, e).cfg == s.cfg && !Step(s, e).pc.Stopped?
  {
  }

  /** A durable run that begins on empty storage has the configured key file in place
      when it initializes, and it is gone when the run succeeds. */
  lemma {:induction false} PgpStagedAndRemoved(s: State, cfg: Config, es: seq<Event>)
    requires !s.vault.Initialized() && cfg.mode == "durable" && OneRun(es)
    ensures var t := Exec(Step(s, Restart(cfg)), es);
            && PgpInOrder(t, s.volume.pgp) && t.cfg == cfg && !t.pc.Stopped?
            && (t.pc.OperatorInit? ==> (t.volume.pgp <==> cfg.pgp || s.volume.pgp))
            && (t.pc.Done? ==> !t.volume.pgp)
    decreases |es|
  {
    hide Usable;
    if es != [] {
      var before := Exec(Step(s, Restart(cfg)), es[..|es| - 1]);
      assert OneRun(es[..|es| - 1]);
      PgpStagedAndRemoved(s, cfg, es[..|es| - 1]);
      PgpStep(before, es[|es| - 1], s.volume.pgp);
      SameConfig(before, es[|es| - 1]);
    }
  }
}
