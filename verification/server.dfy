/** The durable container's command (provision/server.sh): refuse without an
    auto-unseal seal, start the server, provision it, and stop it again if that
    fails. The container may die and be started again at any point. */
module Server {
  import opened VaultModel
  import opened Provisioning
  import Safety
  import Convergence
  import Script

  datatype Phase =
    | Down | Refused | Starting | Provisioning | Serving | Stopping | Exited(code: int)

  /** `server` says whether the vault process runs, `seal` what VAULT_SEAL_TYPE holds. */
  datatype Container = Container(phase: Phase, server: bool, seal: string, cfg: Config, inner: State)

  datatype Event =
    | Boot(seal: string, cfg: Config)     // the container is started, whatever it was doing
    | Next(ok: bool)                      // the shell's next command
    | Inner(e: Provisioning.Event)        // a command of the provisioning script, or outsiders
    | ServerEnds(code: int)               // the server the shell waits for ends by itself
    | Terminated(code: int)               // TERM or INT: the trap waits for the server

  predicate AutoUnseals(seal: string) {
    seal != "" && seal != "shamir"
  }

  function Step(c: Container, e: Event): Container {
    match e
    case Boot(seal, cfg) =>
      Container(if AutoUnseals(seal) then Starting else Refused, false, seal, cfg.(mode := "durable"), c.inner)
    case Inner(i) =>
      if (i.Others? && c.server) || (c.phase.Provisioning? && !i.Restart?) then c.(inner := Provisioning.Step(c.inner, i)) else c
    case ServerEnds(code) =>
      if c.phase.Serving? then c.(phase := Exited(code), server := false) else c
    case Terminated(code) =>
      if c.server then c.(phase := Exited(code), server := false) else c
    case Next(ok) =>
      match c.phase
      case Starting =>
        if !ok then c.(phase := Exited(1))
        else c.(phase := Provisioning, server := true, inner := Provisioning.Step(c.inner, Restart(c.cfg)))
      case Provisioning =>
        if c.inner.pc.Done? then c.(phase := Serving)
        else if c.inner.pc.Failed? then c.(phase := Stopping)
        else c
      case Stopping => c.(phase := Exited(1), server := false)
      case _ => c
  }

  function Exec(c: Container, es: seq<Event>): Container
    decreases |es|
  {
    if es == [] then c else Step(Exec(c, es[..|es| - 1]), es[|es| - 1])
  }

  predicate Admissible(c: Container, e: Event) {
    match e
    case Inner(i) => Provisioning.Admissible(c.inner, i)
    case Next(_) => c.phase.Starting? ==> Provisioning.Admissible(c.inner, Restart(c.cfg))
    case _ => true
  }

  ghost predicate AdmissibleRun(c: Container, es: seq<Event>)
    decreases |es|
  {
    es == [] || (AdmissibleRun(c, es[..|es| - 1]) && Admissible(Exec(c, es[..|es| - 1]), es[|es| - 1]))
  }

  const ORIGIN := Container(Down, false, "", Config("durable", "", "", 0, false), Provisioning.ORIGIN)

  predicate Inv(c: Container) {
    && Safety.Inv(c.inner)
    && (c.server ==> AutoUnseals(c.seal))
    && (c.server <==> c.phase.Provisioning? || c.phase.Serving? || c.phase.Stopping?)
    && c.cfg.mode == "durable"
    && (c.phase.Provisioning? ==> !c.inner.pc.Stopped?)
    && (c.phase.Starting? ==> AutoUnseals(c.seal))
    && (c.phase.Provisioning? || c.phase.Serving? ==> c.inner.cfg == c.cfg)
    && (c.phase.Serving? ==> c.inner.pc.Done?)
  }

  lemma CommandKeepsConfig(s: State, e: Provisioning.Event)
    requires !e.Restart?
    ensures Provisioning.Step(s, e).cfg == s.cfg
    ensures !s.pc.Stopped? ==> !Provisioning.Step(s, e).pc.Stopped?
  {
  }

  lemma {:induction false} StepKeepsInv(c: Container, e: Event)
    requires Inv(c) && Admissible(c, e)
    ensures Inv(Step(c, e))
  {
    if e.Inner? {
      Safety.StepKeepsInv(c.inner, e.e);
      if !e.e.Restart? { CommandKeepsConfig(c.inner, e.e); }
    } else if e.Next? && c.phase.Starting? {
      Safety.StepKeepsInv(c.inner, Restart(c.cfg));
    }
  }

  /** Over every sequence of container starts, deaths and signals: "vault: provisioned"
      is announced, and the container serves, only with everything the consumers need
      in place; when the command has exited no server is left; and no server ever runs
      without an auto-unseal seal. */
  lemma {:induction false} ServingMeansProvisioned(es: seq<Event>)
    requires AdmissibleRun(ORIGIN, es)
    ensures var c := Exec(ORIGIN, es);
            && Inv(c)
            && (c.phase.Serving? ==> Convergence.Provisioned(c.inner) && c.inner.cfg == c.cfg)
            && (c.phase.Exited? || c.phase.Refused? ==> !c.server)
            && (c.server ==> c.seal != "" && c.seal != "shamir")
    decreases |es|
  {
    if es != [] {
      var before := es[..|es| - 1];
      ServingMeansProvisioned(before);
      StepKeepsInv(Exec(ORIGIN, before), es[|es| - 1]);
    }
  }

  /** A container start gets as far as starting the server if and only if the seal is
      neither missing nor shamir; otherwise it ends there, with both stores untouched. */
  lemma BootsExactlyWhen(c: Container, seal: string, cfg: Config)
    ensures var d := Step(c, Boot(seal, cfg));
            && (d.phase.Starting? <==> seal != "" && seal != "shamir")
            && (!d.phase.Starting? ==> d.phase.Refused?)
            && !d.server && d.inner == c.inner
  {
  }

  /** Refused stays refused until the next start. */
  lemma {:induction false} RefusedUntilNextBoot(c: Container, seal: string, cfg: Config, es: seq<Event>)
    requires seal == "" || seal == "shamir"
    requires forall i | 0 <= i < |es| :: !es[i].Boot?
    ensures Exec(Step(c, Boot(seal, cfg)), es) == Step(c, Boot(seal, cfg))
    decreases |es|
  {
    if es != [] {
      var before := es[..|es| - 1];
      assert forall i | 0 <= i < |before| :: before[i] == es[i];
      RefusedUntilNextBoot(c, seal, cfg, before);
      assert !es[|es| - 1].Boot?;
    }
  }

  // ------------------------------------------------------------ the script itself

  /** The server process: how often it was started, and whether it runs. */
  class Process {
    var running: bool
    var starts: nat

    constructor ()
      ensures !running && starts == 0
    {
      running, starts := false, 0;
    }

    method Start()
      modifies this
      ensures running && starts == old(starts) + 1
    {
      running, starts := true, starts + 1;
    }

    /** kill -TERM and wait. */
    method Stop()
      modifies this`running
      ensures !running
    {
      running := false;
    }
  }

  function Inners(es: seq<Provisioning.Event>): (r: seq<Event>)
    ensures |r| == |es| && forall i | 0 <= i < |es| :: r[i] == Inner(es[i])
  {
    seq(|es|, i requires 0 <= i < |es| => Inner(es[i]))
  }

  lemma Then(c: Container, es: seq<Event>, e: Event)
    ensures Exec(c, es + [e]) == Step(Exec(c, es), e)
  {
    assert (es + [e])[..|es|] == es;
  }

  /** A run of the provisioning script is a stretch of the container's. */
  lemma {:induction false} Provisions(c: Container, before: seq<Event>, es: seq<Provisioning.Event>)
    requires Exec(c, before).phase.Provisioning? && Safety.OneRun(es)
    ensures var d := Exec(c, before);
            Exec(c, before + Inners(es)) == d.(inner := Provisioning.Exec(d.inner, es))
    decreases |es|
  {
    hide Provisioning.Step;
    var d := Exec(c, before);
    if es == [] {
      assert before + Inners(es) == before;
      assert Provisioning.Exec(d.inner, es) == d.inner;
    } else {
      var n := |es| - 1;
      assert Safety.OneRun(es[..n]);
      Provisions(c, before, es[..n]);
      assert before + Inners(es) == before + Inners(es[..n]) + [Inner(es[n])];
      Then(c, before + Inners(es[..n]), Inner(es[n]));
      assert !es[n].Restart?;
    }
  }

  lemma Launches(c: Container, seal: string, cfg: Config)
    requires seal != "" && seal != "shamir" && cfg.mode == "durable"
    ensures Exec(c, [Boot(seal, cfg), Next(true)]) ==
            Container(Provisioning, true, seal, cfg, Provisioning.Step(c.inner, Restart(cfg)))
  {
    hide Provisioning.Step;
    var es := [Boot(seal, cfg), Next(true)];
    assert es[..1] == [Boot(seal, cfg)] && es[..1][..0] == [];
    assert Exec(c, es) == Step(Exec(c, es[..1]), es[1]);
    assert Exec(c, es[..1]) == Step(Exec(c, []), es[0]);
    assert cfg == cfg.(mode := "durable");
  }

  lemma Boots(c: Container, seal: string, cfg: Config)
    ensures Exec(c, [Boot(seal, cfg)]) == Step(c, Boot(seal, cfg))
  {
    assert [Boot(seal, cfg)][..0] == [];
  }

  /** server.sh from the top, as a container start in state `c`: its exit code, and
      whether it announced success. The server ends by itself with `status` when nothing
      stops it. */
  method Serve(seal: string, server: Process, run: Script.Run, status: int, ghost c: Container)
    returns (code: int, announced: bool, ghost es: seq<Event>)
    requires !server.running && run.cfg.mode == "durable"
    requires run.OnPath() && run.Agrees() && run.asked == run.first && run.m.pc == Start(run.cfg)
    requires run.m == Provisioning.Step(c.inner, Restart(run.cfg))
    modifies server, run`asked, run`m, run`vault, run`files
    ensures !server.running && run.OnPath() && run.Agrees()
    ensures server.starts == old(server.starts) + if seal == "" || seal == "shamir" then 0 else 1
    ensures seal == "" || seal == "shamir" ==>
              code == 78 && !announced && run.vault == old(run.vault) && run.files == old(run.files) && run.m == old(run.m)
    ensures seal != "" && seal != "shamir" ==>
              (announced <==> run.m.pc.Done?) && code == if announced then status else 1
    ensures var d := Exec(c, es);
            if seal == "" || seal == "shamir" then d.phase.Refused? && d.inner == c.inner
            else d.phase == Exited(code) && !d.server && d.inner == run.m
  {
    hide Script.Driven, Exec, Provisioning.Step;
    announced := false;
    es := [Boot(seal, run.cfg)];
    if seal == "" {
      Boots(c, seal, run.cfg);
      return 78, false, es;
    }
    if seal == "shamir" {
      Boots(c, seal, run.cfg);
      return 78, false, es;
    }
    server.Start();
    es := [Boot(seal, run.cfg), Next(true)];
    Launches(c, seal, run.cfg);
    ghost var start := run.m;
    StartsThere(run);
    var result := run.Provision();
    ghost var answers := Script.DrivenIsExec(start, run.world, run.first, run.asked);
    Provisions(c, es, answers);
    es := es + Inners(answers);
    Then(c, es, Next(true));
    es := es + [Next(true)];
    if result != 0 {
      server.Stop();
      Then(c, es, Next(true));
      es := es + [Next(true)];
      return 1, false, es;
    }
    announced := true;
    server.Stop();
    Then(c, es, ServerEnds(status));
    es := es + [ServerEnds(status)];
    code := status;
  }

  lemma StartsThere(run: Script.Run)
    requires run.OnPath() && run.asked == run.first
    ensures run.m == run.start
  {
  }
}
