/** Why no run may be configured with the initial root token as its access token. */
module RootAccess {
  import opened Options
  import opened VaultModel
  import opened Provisioning
  import opened Safety
  import opened Convergence
  import Transit

  // ------------------------------------------------------------ exactly when the token survives

  predicate Creating(pc: Pc) {
    pc.StagePgp? || pc.OpenPartial? || pc.OperatorInit? || pc.Publish? || pc.RemovePgp?
  }

  /** The access token is the root token init.json records: the run will revoke it. */
  predicate RevokingItself(s: State) {
    && s.cfg.mode == "durable" && s.cfg.token != "" && s.vault.Initialized() && !Creating(s.pc) && !s.pc.Stopped?
    && (s.pc.Revoke? || s.pc.LookupRoot? ==> s.pc.root == s.cfg.token)
    && (if s.pc.WriteScrubbed? || s.pc.PublishScrubbed? || s.pc.Done? then s.cfg.token !in s.vault.live
        else Root(s.volume) == s.cfg.token)
  }

  lemma RevokingItselfRetires(s: State, e: Event)
    requires RevokingItself(s) && Retiring(s.pc)
    requires s.pc.LookupRoot? ==> e.Ok?
    ensures RevokingItself(StepRetire(s, e)) || StepRetire(s, e).pc.Failed?
  {
  }

  lemma RevokingItselfWaits(s: State, e: Event)
    requires RevokingItself(s) && !e.Restart? && !e.Others? && (s.pc.WaitSealed? || s.pc.WaitUnsealed? || s.pc.ReadInit?)
    ensures RevokingItself(Step(s, e)) || Step(s, e).pc.Failed?
  {
    assert Step(s, e) == s.(pc := Step(s, e).pc);
  }

  lemma RevokingItselfInKv(s: State, e: Event)
    requires RevokingItself(s) && s.pc.Kv?
    ensures RevokingItself(StepKv(s, e)) || StepKv(s, e).pc.Failed?
  {
  }

  lemma RevokingItselfInTransit(s: State, e: Event)
    requires RevokingItself(s) && s.pc.InTransit?
    ensures RevokingItself(StepTransit(s, e)) || StepTransit(s, e).pc.Failed?
  {
  }

  lemma RevokingItselfInstalls(s: State, e: Event)
    requires RevokingItself(s) && Installing(s.pc)
    ensures RevokingItself(StepInstall(s, e)) || StepInstall(s, e).pc.Failed?
  {
  }

  lemma {:induction false} RevokingItselfStep(s: State, e: Event)
    requires RevokingItself(s) && !e.Restart? && !e.Others?
    requires s.pc.LookupRoot? ==> e.Ok?
    ensures RevokingItself(Step(s, e)) || Step(s, e).pc.Failed?
  {
    if Retiring(s.pc) {
      RevokingItselfRetires(s, e);
      assert Step(s, e) == StepRetire(s, e);
    } else if s.pc.WaitSealed? || s.pc.WaitUnsealed? || s.pc.ReadInit? {
      RevokingItselfWaits(s, e);
    } else if Installing(s.pc) {
      RevokingItselfInstalls(s, e);
      assert Step(s, e) == StepInstall(s, e);
    } else if s.pc.Kv? {
      RevokingItselfInKv(s, e);
      assert Step(s, e) == StepKv(s, e);
    } else if s.pc.InTransit? {
      RevokingItselfInTransit(s, e);
      assert Step(s, e) == StepTransit(s, e);
    } else {
      assert Step(s, e) == s;
    }
  }

  /** Nothing is on record: the run will revoke nothing. */
  predicate KeepingItself(s: State) {
    && s.cfg.mode == "durable" && s.vault.Initialized() && Root(s.volume) == ""
    && !Creating(s.pc) && !s.pc.Stopped? && !s.pc.Install? && !s.pc.LookupInstalled?
    && (Retiring(s.pc) ==> s.pc.ReadRootAgain?)
    && (s.pc.Kv? || s.pc.InTransit? || s.pc.ReadRootAgain? || s.pc.Done? ==> s.cfg.token in s.vault.live)
  }

  lemma KeepingItselfWaits(s: State, e: Event)
    requires KeepingItself(s) && !e.Restart? && !e.Others? && (s.pc.WaitSealed? || s.pc.WaitUnsealed? || s.pc.ReadInit?)
    ensures KeepingItself(Step(s, e))
  {
    assert Step(s, e) == s.(pc := Step(s, e).pc);
  }

  lemma KeepingItselfInKv(s: State, e: Event)
    requires KeepingItself(s) && s.pc.Kv?
    ensures KeepingItself(StepKv(s, e))
  {
  }

  lemma KeepingItselfInTransit(s: State, e: Event)
    requires KeepingItself(s) && s.pc.InTransit?
    ensures KeepingItself(StepTransit(s, e))
  {
  }

  lemma KeepingItselfInstalls(s: State, e: Event)
    requires KeepingItself(s) && Installing(s.pc)
    ensures KeepingItself(StepInstall(s, e))
  {
  }

  lemma KeepingItselfStep(s: State, e: Event)
    requires KeepingItself(s) && !e.Restart? && !e.Others?
    ensures KeepingItself(Step(s, e))
  {
    if s.pc.WaitSealed? || s.pc.WaitUnsealed? || s.pc.ReadInit? {
      KeepingItselfWaits(s, e);
    } else if Installing(s.pc) {
      KeepingItselfInstalls(s, e);
      assert Step(s, e) == StepInstall(s, e);
    } else if s.pc.Kv? {
      KeepingItselfInKv(s, e);
      assert Step(s, e) == StepKv(s, e);
    } else if s.pc.InTransit? {
      KeepingItselfInTransit(s, e);
      assert Step(s, e) == StepTransit(s, e);
    } else {
      assert Step(s, e) == StepRetire(s, e);
    }
  }

  lemma {:induction false} RunRevokesItself(s: State, es: seq<Event>)
    requires RevokingItself(s) && OneRun(es) && RootLookupsTruthful(s, es)
    ensures RevokingItself(Exec(s, es)) || Exec(s, es).pc.Failed?
    decreases |es|
  {
    hide Step, RevokingItself;
    if es != [] {
      var before, e := es[..|es| - 1], es[|es| - 1];
      assert OneRun(before);
      RunRevokesItself(s, before);
      if Exec(s, before).pc.Failed? { FailedStays(Exec(s, before), e); } else { RevokingItselfStep(Exec(s, before), e); }
    }
  }

  lemma FailedStays(s: State, e: Event)
    requires s.pc.Failed? && !e.Restart? && !e.Others?
    ensures Step(s, e) == s
  {
  }

  lemma {:induction false} RunKeepsItself(s: State, es: seq<Event>)
    requires KeepingItself(s) && OneRun(es)
    ensures KeepingItself(Exec(s, es))
    decreases |es|
  {
    hide Step, KeepingItself;
    if es != [] {
      assert OneRun(es[..|es| - 1]);
      RunKeepsItself(s, es[..|es| - 1]);
      KeepingItselfStep(Exec(s, es[..|es| - 1]), es[|es| - 1]);
    }
  }

  lemma {:induction false} RunKeepsConfig(s: State, es: seq<Event>)
    requires OneRun(es)
    ensures Exec(s, es).cfg == s.cfg
    decreases |es|
  {
    if es != [] {
      assert OneRun(es[..|es| - 1]);
      RunKeepsConfig(s, es[..|es| - 1]);
    }
  }

  lemma AtTheStart(s: State, cfg: Config)
    requires Inv(s) && cfg.mode == "durable" && Usable(cfg)
    ensures Root(s.volume) != "" ==> s.vault.issued == Some(Root(s.volume))
    ensures Some(cfg.token) == s.vault.issued ==>
              if Root(s.volume) == "" then KeepingItself(s.(cfg := cfg, pc := WaitSealed(0)))
              else RevokingItself(s.(cfg := cfg, pc := WaitSealed(0)))
  {
  }

  lemma AtTheEnd(t: State)
    requires t.pc.Done? && t.cfg.mode == "durable"
    ensures Inv(t) || KeepingItself(t) ==> t.vault.Allows(t.cfg.token)
    ensures RevokingItself(t) ==> !t.vault.Allows(t.cfg.token)
  {
  }

  /** From every state admissible runs can leave, whatever the next run's access token
      and whatever fails in it: a run that reports success with the root token's lookup
      answered leaves its access token alive if and only if that token is not the
      initial root token still on record. */
  lemma TokenSurvivesExactlyWhen(es: seq<Event>, cfg: Config, fs: seq<Event>)
    requires AdmissibleRun(ORIGIN, es) && cfg.mode == "durable" && Usable(cfg)
    requires OneRun(fs)
    requires AdmissibleRun(Step(Exec(ORIGIN, es), Restart(cfg)), fs)
    requires RootLookupsTruthful(Step(Exec(ORIGIN, es), Restart(cfg)), fs)
    ensures var s := Exec(ORIGIN, es);
            var t := Exec(Step(s, Restart(cfg)), fs);
            t.pc.Done? ==> (t.vault.Allows(cfg.token) <==> cfg.token != Root(s.volume))
  {
    hide Exec, Inv, OneRun, RootLookupsTruthful, RevokingItself, KeepingItself;
    var s := Exec(ORIGIN, es);
    var s' := Step(s, Restart(cfg));
    assert s' == s.(cfg := cfg, pc := WaitSealed(0));
    Reachable(es);
    RunKeepsConfig(s', fs);
    AtTheStart(s, cfg);
    if Some(cfg.token) != s.vault.issued {
      StepKeepsInv(s, Restart(cfg));
      ExecKeepsInv(s', fs);
    } else if Root(s.volume) == "" {
      RunKeepsItself(s', fs);
    } else {
      RunRevokesItself(s', fs);
    }
    if Exec(s', fs).pc.Done? { AtTheEnd(Exec(s', fs)); }
  }

  // ------------------------------------------------------------ and it does happen

  /** A run whose access token is the initial root token itself. */
  predicate LockingOut(s: State, root: Token) {
    && s.cfg.mode == "durable" && Usable(s.cfg) && s.cfg.token == root && s.vault.issued == Some(root)
    && NoConflict(s.vault) && s.volume.record.Some?
    && (match s.pc
        case LookupRoot(r) => r == root && s.vault.live == map[]
        case WriteScrubbed => s.vault.live == map[]
        case PublishScrubbed => s.vault.live == map[] && s.volume.scrubbed.Some? && s.volume.scrubbed.value.root == ""
        case Done => s.vault.live == map[] && Root(s.volume) == ""
        case Kv(kv) => HasOnlyRoot(s, root) && (kv.RereadKv? || kv.ReadOptions? ==> SECRET in s.vault.mounts)
        case InTransit(t) => HasOnlyRoot(s, root) && Transit.OnTrack(s.vault, root, s.cfg.key, t) && t.Rank() > 0
        case Revoke(r) => HasOnlyRoot(s, root) && r == root
        case _ => HasOnlyRoot(s, root) && (s.pc.WaitSealed? || s.pc.ReadInit? || s.pc.WaitUnsealed? || s.pc.LookupAccess? || s.pc.ReadRootAgain?))
  }

  predicate HasOnlyRoot(s: State, root: Token) {
    s.vault.live == map[root := {}] && Root(s.volume) == root
  }

  lemma LockingOutTransit(s: State, root: Token)
    requires LockingOut(s, root) && s.pc.InTransit?
    ensures LockingOut(StepTransit(s, Ok), root)
    ensures Rank(StepTransit(s, Ok).pc) < Rank(s.pc)
  {
    Transit.StepOnTrack(root, s.cfg.key, s.vault, s.pc.transit);
    Transit.StepEstablishes(root, s.cfg.key, s.vault, s.pc.transit, Transit.Answered);
    ScriptMountsWhatBelongs(s, Ok);
  }

  lemma LockingOutKv(s: State, root: Token)
    requires LockingOut(s, root) && s.pc.Kv?
    ensures LockingOut(StepKv(s, Ok), root)
    ensures Rank(StepKv(s, Ok).pc) < Rank(s.pc)
  {
    ScriptMountsWhatBelongs(s, Ok);
  }

  lemma LockingOutRetire(s: State, root: Token)
    requires LockingOut(s, root) && Retiring(s.pc)
    ensures LockingOut(StepRetire(s, Ok), root)
    ensures Rank(StepRetire(s, Ok).pc) < Rank(s.pc)
  {
  }

  lemma LockingOutStep(s: State, root: Token)
    requires LockingOut(s, root)
    ensures LockingOut(Step(s, Ok), root)
    ensures s.pc.Done? || Rank(Step(s, Ok).pc) < Rank(s.pc)
  {
    if s.pc.InTransit? {
      LockingOutTransit(s, root);
      assert Step(s, Ok) == StepTransit(s, Ok);
    } else if Retiring(s.pc) {
      LockingOutRetire(s, root);
      assert Step(s, Ok) == StepRetire(s, Ok);
    } else if s.pc.Kv? {
      LockingOutKv(s, root);
      assert Step(s, Ok) == StepKv(s, Ok);
    } else if s.pc.Done? {
      assert Step(s, Ok) == s;
    } else {
      assert Step(s, Ok) == s.(pc := Step(s, Ok).pc, seen := Step(s, Ok).seen);
    }
  }

  function Oks(n: nat): seq<Event> {
    seq(n, _ => Ok)
  }

  lemma {:induction false} LockingOutRun(s: State, root: Token, n: nat)
    requires LockingOut(s, root)
    ensures LockingOut(Exec(s, Oks(n)), root)
    ensures Exec(s, Oks(n)).pc.Done? || Rank(Exec(s, Oks(n)).pc) + n <= Rank(s.pc)
    decreases n
  {
    hide LockingOut, Step, Rank;
    if n == 0 {
      assert Exec(s, Oks(0)) == s;
    } else {
      LockingOutRun(s, root, n - 1);
      assert Oks(n)[..n - 1] == Oks(n - 1);
      var t := Exec(s, Oks(n - 1));
      LockingOutStep(t, root);
      assert Exec(s, Oks(n)) == Step(t, Ok);
      if t.pc.Done? { DoneStays(t, Ok); }
    }
  }

  lemma DoneStays(s: State, e: Event)
    requires s.pc.Done? && !e.Restart? && !e.Others?
    ensures Step(s, e) == s
  {
  }

  lemma LockedOutAtTheEnd(s: State, root: Token)
    requires LockingOut(s, root) && (s.pc.Done? || Rank(s.pc) == 0)
    ensures s.pc.Done? && s.vault.live == map[]
  {
  }

  /** That the access token is not the initial root token is needed: given that one,
      the run reports success and leaves no token alive at all. */
  lemma RootAsAccessTokenLocksOut(s: State, root: Token)
    requires LockingOut(s, root) && s.pc == WaitSealed(0)
    ensures Exec(s, Oks(27)).pc.Done? && Exec(s, Oks(27)).vault.live == map[]
  {
    hide LockingOut, Exec;
    LockingOutRun(s, root, 27);
    LockedOutAtTheEnd(Exec(s, Oks(27)), root);
  }
}
