/** The script in dev mode: only the transit engine and its key, on a server that
    initializes itself. */
module DevMode {
  import opened Options
  import opened VaultModel
  import opened Provisioning
  import opened Safety
  import Commands
  import Convergence
  import Transit

  predicate TransitFits(v: Vault) {
    TRANSIT in v.mounts ==> v.mounts[TRANSIT].kind == "transit"
  }

  /** What a dev run needs. */
  predicate Fits(v: Vault, token: Token) {
    v.issued.Some? && token in v.live && TransitFits(v)
  }

  // ------------------------------------------------------------ what a dev run leaves alone

  predicate OnlyTransit(s: State, v: Vault, volume: Volume) {
    && s.cfg.mode == "dev" && s.volume == volume && s.vault.live == v.live && s.vault.issued == v.issued
    && (s.pc.WaitUnsealed? || s.pc.InTransit? || s.pc.Done? || s.pc.Failed?)
    && (s.pc.Done? ==> TransitServed(s))
    && (s.pc.InTransit? ==> Transit.Established(s.vault, s.cfg.key, s.pc.transit))
  }

  lemma OnlyTransitStep(s: State, e: Event, v: Vault, volume: Volume)
    requires OnlyTransit(s, v, volume) && !e.Restart? && !e.Others?
    ensures OnlyTransit(Step(s, e), v, volume) && Step(s, e).cfg == s.cfg
  {
    if s.pc.InTransit? {
      Transit.StepEstablishes(s.cfg.token, s.cfg.key, s.vault, s.pc.transit, Answer(e));
      assert Step(s, e) == StepTransit(s, e);
    } else if s.pc.WaitUnsealed? {
      assert Step(s, e) == StepWaitUnsealed(s, e);
    } else {
      assert Step(s, e) == s;
    }
  }

  /** From every state, whatever is answered: a dev run leaves the volume, all tokens,
      all mounts and all keys alone, and success means engine and key. */
  lemma {:induction false} TouchesOnlyTransit(s: State, cfg: Config, es: seq<Event>)
    requires cfg.mode == "dev" && OneRun(es)
    ensures var t := Exec(Step(s, Restart(cfg)), es);
            && OnlyTransit(t, s.vault, s.volume) && t.cfg == cfg
            && KeysKept(s.vault, t.vault) && MountsKept(s.vault, t.vault)
            && (t.pc.Done? ==> t.vault.Mounted("transit", "transit") && cfg.key in t.vault.keys)
    decreases |es|
  {
    KeysNeverRotate(Step(s, Restart(cfg)), es);
    if es != [] {
      assert OneRun(es[..|es| - 1]);
      TouchesOnlyTransit(s, cfg, es[..|es| - 1]);
      OnlyTransitStep(Exec(Step(s, Restart(cfg)), es[..|es| - 1]), es[|es| - 1], s.vault, s.volume);
    }
  }

  // ------------------------------------------------------------ exactly when it succeeds

  predicate OnCourse(s: State) {
    && s.cfg.mode == "dev" && Fits(s.vault, s.cfg.token)
    && (s.pc.WaitUnsealed? || s.pc.Done?
        || (s.pc.InTransit? && s.pc.transit.Rank() > 0 && Transit.OnTrack(s.vault, s.cfg.token, s.cfg.key, s.pc.transit)))
  }

  lemma OnCourseStep(s: State, e: Event)
    requires OnCourse(s) && Convergence.Calm(s, e)
    ensures OnCourse(Step(s, e))
    ensures if s.pc.Done? then Step(s, e) == s else Convergence.Left(Step(s, e)) < Convergence.Left(s)
  {
    if s.pc.InTransit? {
      Transit.StepOnTrack(s.cfg.token, s.cfg.key, s.vault, s.pc.transit);
      Transit.StepEstablishes(s.cfg.token, s.cfg.key, s.vault, s.pc.transit, Transit.Answered);
      assert Step(s, e) == StepTransit(s, e);
    } else if s.pc.WaitUnsealed? {
      assert Step(s, e) == StepWaitUnsealed(s, e);
    } else {
      assert Step(s, e) == s;
    }
  }

  lemma {:induction false} CalmRunStaysOnCourse(s: State, es: seq<Event>)
    requires OnCourse(s) && Convergence.CalmRun(s, es)
    ensures OnCourse(Exec(s, es))
    ensures Convergence.Left(Exec(s, es)) + |es| <= Convergence.Left(s) || Exec(s, es).pc.Done?
    decreases |es|
  {
    hide Step, OnCourse;
    if es != [] {
      CalmRunStaysOnCourse(s, es[..|es| - 1]);
      OnCourseStep(Exec(s, es[..|es| - 1]), es[|es| - 1]);
    }
  }

  /** Without what it needs, a run changes nothing and gets nowhere. */
  predicate Stuck(s: State, v: Vault) {
    && s.cfg.mode == "dev" && s.vault == v && !Fits(v, s.cfg.token)
    && (s.pc.WaitUnsealed? || s.pc.Failed?
        || (s.pc.InTransit? && v.issued.Some? && (s.pc.transit.ReadMount? || s.pc.transit.EnableEngine? || s.pc.transit.RereadMount?)))
  }

  lemma StuckStep(s: State, e: Event, v: Vault)
    requires Stuck(s, v) && !e.Restart? && !e.Others?
    ensures Stuck(Step(s, e), v)
  {
    if s.pc.InTransit? {
      assert Step(s, e) == StepTransit(s, e);
    } else if s.pc.WaitUnsealed? {
      assert Step(s, e) == StepWaitUnsealed(s, e);
    } else {
      assert Step(s, e) == s;
    }
  }

  lemma {:induction false} StuckRun(s: State, v: Vault, es: seq<Event>)
    requires Stuck(s, v) && OneRun(es)
    ensures Stuck(Exec(s, es), v)
    decreases |es|
  {
    hide Step, Stuck;
    if es != [] {
      assert OneRun(es[..|es| - 1]);
      StuckRun(s, v, es[..|es| - 1]);
      StuckStep(Exec(s, es[..|es| - 1]), es[|es| - 1], v);
    }
  }

  lemma Begins(s: State, cfg: Config)
    requires Commands.GoodArguments(cfg) && cfg.mode == "dev"
    ensures Step(s, Restart(cfg)) == s.(cfg := cfg, pc := WaitUnsealed(0))
  {
    Commands.RefusedExactlyWhen(s, cfg);
  }

  /** From every state: an answered dev run with good arguments succeeds if and only if
      Vault is initialized, the token is live, nothing but a transit engine is mounted
      at transit/, and the server is ready within the attempts. */
  lemma {:induction false} SucceedsExactlyWhen(s: State, cfg: Config, es: seq<Event>)
    requires Commands.GoodArguments(cfg) && cfg.mode == "dev"
    requires Convergence.AnsweredRun(Step(s, Restart(cfg)), es)
    requires |es| >= 20 + if cfg.attempts > 1 then cfg.attempts - 1 else 0
    ensures var s' := Step(s, Restart(cfg));
            Exec(s', es).pc.Done? <==>
              && s.vault.issued.Some? && cfg.token in s.vault.live
              && ("transit" in s.vault.mounts ==> s.vault.mounts["transit"].kind == "transit")
              && Convergence.CalmRun(s', es)
  {
    hide Exec, Commands.GoodArguments;
    var s' := s.(cfg := cfg, pc := WaitUnsealed(0));
    Begins(s, cfg);
    if !Fits(s.vault, cfg.token) {
      Convergence.AnsweredIsOneRun(s', es);
      StuckRun(s', s.vault, es);
    } else if Convergence.CalmRun(s', es) {
      CalmRunStaysOnCourse(s', es);
    } else {
      Convergence.LateRunFails(s', es);
    }
  }
}
