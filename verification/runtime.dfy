/** The lock and container lifecycle of runtime.go over openLocalVaultState and close
    of localstate.go: agents of the same service share a state directory, its lock
    file and the container's name. */
module Runtime {
  import opened Options

  /** What an agent remembers of openLocalVaultState: the open lock file, until close
      sets it to nil. */
  datatype Handle = Handle(id: nat, open: bool)

  /** Where an agent is in Init, Stop or Destroy. Shutdown(attempt, again): teardown's
      retry loop; `again` when Init's deferred teardown is still to come. */
  datatype Pc =
    | Idle | Prepare | StartContainer | Bootstrap | Shutdown(attempt: nat, again: bool)

  /** `runner`: runnerEnvironment has been set by some Init. */
  datatype Agent = Agent(pc: Pc, local: Option<Handle>, runner: bool)

  /** `holder`: who flocks the lock file, by agent and open file. `container`: the
      running container of the service's name, by the agent that started it and the open
      file it held then. */
  datatype World = World(agents: seq<Agent>, holder: Option<(nat, nat)>, container: Option<(nat, nat)>, nextId: nat)

  /** An agent's next step and how it turns out. */
  datatype Event =
    | CallInit(opens: bool)         // Init up to the lock; opens: the files can be opened
    | Prepared(ok: bool)            // the container's environment and its configuration
    | Started(runs: bool, ok: bool) // the container may run although starting it failed
    | Bootstrapped(ok: bool)
    | CallStop(ok: bool)            // Stop or Destroy; ok: the environment can be had
    | ShutDown(ok: bool, gone: bool) // one attempt; a failed one may still remove it
    | Killed                         // the agent process dies, and another takes its place

  const SHUTDOWN_ATTEMPTS := 3

  function Fresh(n: nat): World {
    World(seq(n, _ => Agent(Idle, None, false)), None, None, 0)
  }

  // ------------------------------------------------------------ the steps

  function Set(w: World, a: nat, agent: Agent): World
    requires a < |w.agents|
  {
    w.(agents := w.agents[a := agent])
  }

  /** localVaultState.close: nothing to do on nil, or once closed. */
  function Close(w: World, a: nat): World
    requires a < |w.agents|
  {
    var agent := w.agents[a];
    if agent.local.Some? && agent.local.value.open
    then Set(w, a, agent.(local := Some(agent.local.value.(open := false)))).(holder := None)
    else w
  }

  /** Open the lock file and flock it without waiting; Init keeps the handle. A lock
      held through any other open file, the agent's own included, refuses. */
  function OpenState(w: World, a: nat, opens: bool): World
    requires a < |w.agents|
  {
    if !opens || w.holder.Some? then w
    else Set(w, a, w.agents[a].(pc := Prepare, local := Some(Handle(w.nextId, true))))
         .(holder := Some((a, w.nextId)), nextId := w.nextId + 1)
  }

  /** Init's deferred clean-up: tear down whatever this Runtime ever ran, or else just
      let go of the lock. */
  function CleanUp(w: World, a: nat): World
    requires a < |w.agents|
  {
    if w.agents[a].runner then Set(w, a, w.agents[a].(pc := Shutdown(0, false)))
    else Set(Close(w, a), a, Close(w, a).agents[a].(pc := Idle))
  }

  /** One attempt of the shutdown loop. The container goes by its name, whoever it
      was that started it. */
  function StepShutdown(w: World, a: nat, ok: bool, gone: bool): World
    requires a < |w.agents| && w.agents[a].pc.Shutdown?
  {
    var pc := w.agents[a].pc;
    var next := if pc.again then Shutdown(0, false) else Idle;
    if ok then
      var v := Close(w, a).(container := None);
      Set(v, a, v.agents[a].(pc := next))
    else
      var v := if gone then w.(container := None) else w;
      Set(v, a, v.agents[a].(pc := if pc.attempt + 1 < SHUTDOWN_ATTEMPTS then Shutdown(pc.attempt + 1, pc.again) else next))
  }

  /** The container of the service's name runs, for this agent and under its lock. */
  function Run(w: World, a: nat): World
    requires a < |w.agents|
  {
    if w.agents[a].local.Some? then w.(container := Some((a, w.agents[a].local.value.id))) else w
  }

  /** The kernel drops a dead process's lock; Docker keeps its container. */
  function Kill(w: World, a: nat): World
    requires a < |w.agents|
  {
    var v := Set(w, a, Agent(Idle, None, false));
    if w.holder.Some? && w.holder.value.0 == a then v.(holder := None) else v
  }

  function Step(w: World, a: nat, e: Event): World {
    if a >= |w.agents| then w
    else
      var agent := w.agents[a];
      match e
      case CallInit(opens) => if agent.pc.Idle? then OpenState(w, a, opens) else w
      case Prepared(ok) =>
        if !agent.pc.Prepare? then w
        else if ok then Set(w, a, agent.(pc := StartContainer, runner := true))
        else CleanUp(w, a)
      case Started(runs, ok) =>
        if !agent.pc.StartContainer? then w
        else
          var v := if runs || ok then Run(w, a) else w;
          if ok then Set(v, a, agent.(pc := Bootstrap)) else Set(v, a, agent.(pc := Shutdown(0, false)))
      case Bootstrapped(ok) =>
        if !agent.pc.Bootstrap? then w
        else if ok then Set(w, a, agent.(pc := Idle))
        else Set(w, a, agent.(pc := Shutdown(0, true)))
      case CallStop(ok) =>
        if agent.pc.Idle? && (agent.runner || ok) then Set(w, a, agent.(pc := Shutdown(0, false))) else w
      case ShutDown(ok, gone) => if agent.pc.Shutdown? then StepShutdown(w, a, ok, gone) else w
      case Killed => Kill(w, a)
  }

  function Exec(w: World, es: seq<(nat, Event)>): World
    decreases |es|
  {
    if es == [] then w else Step(Exec(w, es[..|es| - 1]), es[|es| - 1].0, es[|es| - 1].1)
  }

  // ------------------------------------------------------------ the lock covers the server

  predicate Holds(w: World, a: nat) {
    && a < |w.agents|
    && w.agents[a].local.Some? && w.agents[a].local.value.open
    && w.holder == Some((a, w.agents[a].local.value.id))
  }

  /** A held lock is the one in its agent's localState, and an open handle there holds
      the lock: nobody leaks it, and nobody shares it. */
  predicate LockInOrder(w: World) {
    && (w.holder.Some? ==> Holds(w, w.holder.value.0))
    && (forall a | 0 <= a < |w.agents| :: w.agents[a].local.Some? && w.agents[a].local.value.open ==> Holds(w, a))
  }

  /** A container runs only under the lock its agent started it with. */
  predicate LockCoversServer(w: World) {
    w.container.Some? ==> w.holder == w.container && Holds(w, w.container.value.0)
  }

  predicate Inv(w: World) {
    && LockInOrder(w)
    && (w.container.Some? ==> w.container.value.1 < w.nextId)
    && (w.container.Some? && w.holder == w.container && w.container.value.0 < |w.agents| ==> w.agents[w.container.value.0].runner)
    && (forall a | 0 <= a < |w.agents| ::
          && (w.agents[a].pc.Prepare? || w.agents[a].pc.StartContainer? || w.agents[a].pc.Bootstrap? ==> Holds(w, a))
          && (w.agents[a].local.Some? && w.agents[a].local.value.open ==> w.agents[a].local.value.id < w.nextId)
          && (w.agents[a].pc.StartContainer? || w.agents[a].pc.Bootstrap? ==> w.agents[a].runner)
          && (Holds(w, a) && !w.agents[a].pc.Prepare? ==> w.agents[a].runner))
  }

  lemma CloseKeeps(w: World, a: nat)
    requires Inv(w) && a < |w.agents|
    requires w.agents[a].pc.Shutdown? || w.agents[a].pc.Prepare?
    ensures var v := Close(w, a);
            && v.container == w.container && |v.agents| == |w.agents| && v.nextId == w.nextId
            && LockInOrder(v) && !Holds(v, a)
            && (v.holder == w.holder || v.holder == None)
            && (forall b | 0 <= b < |w.agents| && b != a :: v.agents[b] == w.agents[b] && (Holds(w, b) ==> Holds(v, b)))
            && v.agents[a].pc == w.agents[a].pc && v.agents[a].runner == w.agents[a].runner
  {
  }

  lemma ShutdownKeepsInv(w: World, a: nat, ok: bool, gone: bool)
    requires Inv(w) && a < |w.agents| && w.agents[a].pc.Shutdown?
    ensures Inv(StepShutdown(w, a, ok, gone)) && |StepShutdown(w, a, ok, gone).agents| == |w.agents|
  {
    if ok {
      CloseKeeps(w, a);
    }
  }

  lemma CleanUpKeepsInv(w: World, a: nat)
    requires Inv(w) && a < |w.agents| && w.agents[a].pc.Prepare?
    ensures Inv(CleanUp(w, a)) && |CleanUp(w, a).agents| == |w.agents|
  {
    if !w.agents[a].runner { CloseKeeps(w, a); }
  }

  lemma KillKeepsInv(w: World, a: nat)
    requires Inv(w) && a < |w.agents|
    ensures Inv(Kill(w, a)) && |Kill(w, a).agents| == |w.agents|
  {
    var v := Kill(w, a);
    assert forall b | 0 <= b < |w.agents| && b != a :: v.agents[b] == w.agents[b] && (Holds(w, b) ==> Holds(v, b));
  }

  lemma StepKeepsInv(w: World, a: nat, e: Event)
    requires Inv(w)
    ensures Inv(Step(w, a, e)) && |Step(w, a, e).agents| == |w.agents|
  {
    if a < |w.agents| {
      if e.Killed? {
        KillKeepsInv(w, a);
      } else if e.ShutDown? && w.agents[a].pc.Shutdown? {
        ShutdownKeepsInv(w, a, e.ok, e.gone);
      } else if e.Prepared? && !e.ok && w.agents[a].pc.Prepare? {
        CleanUpKeepsInv(w, a);
      }
    }
  }

  lemma {:induction false} InvOverHistories(n: nat, es: seq<(nat, Event)>)
    ensures Inv(Exec(Fresh(n), es)) && |Exec(Fresh(n), es).agents| == n
    decreases |es|
  {
    if es != [] {
      InvOverHistories(n, es[..|es| - 1]);
      StepKeepsInv(Exec(Fresh(n), es[..|es| - 1]), es[|es| - 1].0, es[|es| - 1].1);
    }
  }

  // ------------------------------------------------------------ exactly when it is covered

  /** The last thing that happened to the running container is that its agent was
      killed. */
  ghost predicate LeftBehind(n: nat, es: seq<(nat, Event)>)
    decreases |es|
  {
    es != [] &&
    var before := es[..|es| - 1];
    var (a, e) := es[|es| - 1];
    var w := Exec(Fresh(n), before);
    if a < |w.agents| && e.Killed? && w.container.Some? && w.container.value.0 == a then true
    else if a < |w.agents| && e.Started? && w.agents[a].pc.StartContainer? && (e.runs || e.ok) then false
    else if a < |w.agents| && e.ShutDown? && w.agents[a].pc.Shutdown? && (e.ok || e.gone) then false
    else LeftBehind(n, before)
  }

  lemma KillUncovers(w: World, a: nat)
    requires Inv(w) && a < |w.agents|
    ensures LockCoversServer(Kill(w, a)) <==> LockCoversServer(w) && !(w.container.Some? && w.container.value.0 == a)
  {
  }

  lemma ShutdownCovers(w: World, a: nat, ok: bool, gone: bool)
    requires Inv(w) && a < |w.agents| && w.agents[a].pc.Shutdown?
    ensures LockCoversServer(StepShutdown(w, a, ok, gone)) <==> ok || gone || LockCoversServer(w)
  {
  }

  lemma OtherwiseCovered(w: World, a: nat, e: Event)
    requires Inv(w) && a < |w.agents| && !e.Killed? && !e.ShutDown?
    ensures LockCoversServer(Step(w, a, e)) <==>
            (e.Started? && w.agents[a].pc.StartContainer? && (e.runs || e.ok)) || LockCoversServer(w)
  {
  }

  /** For every sequence of Init, Stop and Destroy by any number of agents, interleaved
      step by step, with everything failing and agents being killed: the running server
      is covered by the lock it was started under if and only if it was not left behind
      by a killed agent. */
  lemma {:induction false} CoveredExactlyWhen(n: nat, es: seq<(nat, Event)>)
    ensures LockCoversServer(Exec(Fresh(n), es)) <==> !LeftBehind(n, es)
    decreases |es|
  {
    hide Inv, Step, LockCoversServer;
    if es == [] {
      NothingToCover(n);
    } else {
      var before := es[..|es| - 1];
      var (a, e) := es[|es| - 1];
      CoveredExactlyWhen(n, before);
      InvOverHistories(n, before);
      var w := Exec(Fresh(n), before);
      if a >= n {
        NoSuchAgent(w, a, e);
      } else if e.Killed? {
        KillUncovers(w, a);
        KillIsAStep(w, a);
      } else if e.ShutDown? {
        ShutdownIsAStep(w, a, e.ok, e.gone);
        if w.agents[a].pc.Shutdown? { ShutdownCovers(w, a, e.ok, e.gone); }
      } else {
        OtherwiseCovered(w, a, e);
      }
    }
  }

  lemma NothingToCover(n: nat)
    ensures LockCoversServer(Fresh(n))
  {
  }

  lemma NoSuchAgent(w: World, a: nat, e: Event)
    requires a >= |w.agents|
    ensures Step(w, a, e) == w
  {
  }

  lemma KillIsAStep(w: World, a: nat)
    requires a < |w.agents|
    ensures Step(w, a, Killed) == Kill(w, a)
  {
  }

  lemma ShutdownIsAStep(w: World, a: nat, ok: bool, gone: bool)
    requires a < |w.agents|
    ensures Step(w, a, ShutDown(ok, gone)) == if w.agents[a].pc.Shutdown? then StepShutdown(w, a, ok, gone) else w
  {
  }

  predicate NobodyKilled(es: seq<(nat, Event)>) {
    forall i | 0 <= i < |es| :: !es[i].1.Killed?
  }

  lemma {:induction false} NothingLeftBehind(n: nat, es: seq<(nat, Event)>)
    requires NobodyKilled(es)
    ensures !LeftBehind(n, es)
    decreases |es|
  {
    if es != [] {
      assert NobodyKilled(es[..|es| - 1]);
      NothingLeftBehind(n, es[..|es| - 1]);
    }
  }

  /** As long as no agent is killed, whatever else fails: a running container's agent
      holds the lock it started it under; and always, a held lock is the one in its
      agent's localState, and nobody else holds it. */
  lemma {:induction false} LockAlwaysCoversServer(n: nat, es: seq<(nat, Event)>)
    ensures LockInOrder(Exec(Fresh(n), es))
    ensures NobodyKilled(es) ==> LockCoversServer(Exec(Fresh(n), es))
  {
    InvOverHistories(n, es);
    if NobodyKilled(es) {
      NothingLeftBehind(n, es);
      CoveredExactlyWhen(n, es);
    }
  }

  // ------------------------------------------------------------ one agent, in place

  /** The world after some steps of one agent. */
  function Runs(w: World, a: nat, es: seq<Event>): World
    decreases |es|
  {
    if es == [] then w else Step(Runs(w, a, es[..|es| - 1]), a, es[|es| - 1])
  }

  /** Steps inside a call: no agent dies, and no Init begins. */
  predicate InsideCall(es: seq<Event>) {
    forall i | 0 <= i < |es| :: !es[i].Killed? && !es[i].CallInit?
  }

  lemma RunsOn(w: World, a: nat, es: seq<Event>, e: Event)
    ensures Runs(w, a, es + [e]) == Step(Runs(w, a, es), a, e)
    ensures InsideCall(es + [e]) <==> InsideCall(es) && !e.Killed? && !e.CallInit?
  {
    assert (es + [e])[..|es|] == es;
    assert (es + [e])[|es|] == e;
    assert forall i | 0 <= i < |es| :: (es + [e])[i] == es[i];
  }

  lemma NoSteps(w: World, a: nat)
    ensures Runs(w, a, []) == w && InsideCall([])
  {
  }

  lemma {:induction false} RunsConcat(w: World, a: nat, es: seq<Event>, fs: seq<Event>)
    ensures Runs(w, a, es + fs) == Runs(Runs(w, a, es), a, fs)
    ensures InsideCall(es) && InsideCall(fs) ==> InsideCall(es + fs)
    decreases |fs|
  {
    hide Step;
    if fs == [] {
      assert es + fs == es;
    } else {
      var n := |fs| - 1;
      RunsConcat(w, a, es, fs[..n]);
      assert es + fs == es + fs[..n] + [fs[n]];
      RunsOn(w, a, es + fs[..n], fs[n]);
    }
  }

  lemma {:induction false} RunsAreHistories(w: World, a: nat, es: seq<Event>) returns (hs: seq<(nat, Event)>)
    ensures Runs(w, a, es) == Exec(w, hs) && |hs| == |es|
    ensures forall i | 0 <= i < |es| :: hs[i] == (a, es[i])
    decreases |es|
  {
    hide Step;
    if es == [] {
      hs := [];
    } else {
      var before := RunsAreHistories(w, a, es[..|es| - 1]);
      hs := before + [(a, es[|es| - 1])];
      assert hs[..|es| - 1] == before;
    }
  }

  /** The kernel's lock on runtime.lock, and what Docker runs under the service's name. */
  class Host {
    var holder: Option<(nat, nat)>
    var nextId: nat
    var container: Option<(nat, nat)>

    constructor ()
      ensures holder == None && container == None
    {
      holder, nextId, container := None, 0, None;
    }
  }

  /** localVaultState as far as the lock goes: the open lock file. */
  class LockHandle {
    const host: Host
    const agent: nat
    const id: nat
    var open: bool

    constructor (host: Host, agent: nat, id: nat)
      ensures this.host == host && this.agent == agent && this.id == id && open
    {
      this.host, this.agent, this.id, this.open := host, agent, id, true;
    }

    ghost predicate Holding()
      reads this, host
    {
      open && host.holder == Some((agent, id))
    }

    method Close()
      requires open ==> Holding()
      modifies this, host`holder
      ensures !open
      ensures host.holder == if old(open) then None else old(host.holder)
    {
      if open {
        host.holder := None;
        open := false;
      }
    }
  }

  method OpenLocalVaultState(host: Host, agent: nat, opens: bool) returns (state: LockHandle?)
    modifies host`holder, host`nextId
    ensures state != null <==> opens && old(host.holder).None?
    ensures state != null ==>
              fresh(state) && state.host == host && state.agent == agent && state.Holding()
              && state.id == old(host.nextId) && host.nextId == old(host.nextId) + 1
    ensures state == null ==> host.holder == old(host.holder) && host.nextId == old(host.nextId)
  {
    if !opens || host.holder.Some? {
      return null;
    }
    state := new LockHandle(host, agent, host.nextId);
    host.holder := Some((agent, host.nextId));
    host.nextId := host.nextId + 1;
  }

  /** How the outside turns out for one Runtime: each shutdown attempt as (succeeds,
      container gone), and the other calls as they come. */
  datatype Outcomes = Outcomes(shutdown: nat -> (bool, bool), step: nat -> bool)

  class Runtime {
    const host: Host
    const agent: nat
    const outcomes: Outcomes
    var localState: LockHandle?
    var runner: bool
    var attempts: nat
    var steps: nat

    constructor (host: Host, agent: nat, outcomes: Outcomes)
      ensures this.host == host && this.agent == agent && this.outcomes == outcomes
      ensures localState == null && !runner && Mine()
    {
      this.host, this.agent, this.outcomes := host, agent, outcomes;
      localState, runner, attempts, steps := null, false, 0, 0;
    }

    ghost predicate Mine()
      reads this
    {
      localState != null ==> localState.host == host && localState.agent == agent
    }

    ghost function Local(): Option<Handle>
      reads this, localState
    {
      if localState == null then None else Some(Handle(localState.id, localState.open))
    }

    /** This Runtime and its host are where the machine's world says, but perhaps for the
        container. */
    ghost predicate NearlyAgrees(w: World)
      reads this, localState, host
    {
      && Mine() && Inv(w) && agent < |w.agents|
      && w.holder == host.holder && w.nextId == host.nextId
      && w.agents[agent].local == Local() && w.agents[agent].runner == runner
    }

    ghost predicate Agrees(w: World)
      reads this, localState, host
    {
      NearlyAgrees(w) && w.container == host.container
    }

    ghost predicate At(w: World, pc: Pc) {
      agent < |w.agents| && w.agents[agent].pc == pc
    }

    /** One of the next shutdown attempts succeeds. */
    ghost predicate Shuts(first: nat, tries: nat) {
      exists i: nat :: first <= i < first + tries && outcomes.shutdown(i).0
    }

    lemma SixTries(first: nat)
      ensures Shuts(first, 6) <==> Shuts(first, 3) || Shuts(first + 3, 3)
    {
    }

    method Next() returns (ok: bool)
      modifies this`steps
      ensures ok == outcomes.step(old(steps)) && steps == old(steps) + 1
    {
      ok := outcomes.step(steps);
      steps := steps + 1;
    }

    lemma OpenHolds(w: World)
      requires NearlyAgrees(w)
      ensures localState != null && localState.open ==> localState.Holding()
      ensures localState != null && localState.open <==> host.holder.Some? && host.holder.value.0 == agent
    {
    }

    /** retryShutdown: at most three attempts, the first success ends them. `es` are the
        attempts that failed, and `v` is where they leave the machine. */
    method RetryShutdown(ghost w: World, ghost again: bool) returns (ok: bool, ghost es: seq<Event>, ghost v: World)
      requires Agrees(w) && At(w, Shutdown(0, again))
      modifies this`attempts, host`container
      ensures v == Runs(w, agent, es) && NearlyAgrees(v)
      ensures InsideCall(es) && |es| <= 3
      ensures if ok then host.container == None && |es| < 3 && At(v, Shutdown(|es|, again))
              else host.container == v.container && At(v, if again then Shutdown(0, false) else Idle)
      ensures ok <==> Shuts(old(attempts), 3)
      ensures attempts == old(attempts) + if ok then |es| + 1 else 3
      ensures host.container == old(host.container) || host.container == None
    {
      hide Inv, Step, Runs, InsideCall;
      NoSteps(w, agent);
      es, v := [], w;
      var attempt := 1;
      while attempt <= SHUTDOWN_ATTEMPTS
        invariant 1 <= attempt <= 4
        invariant attempts == old(attempts) + attempt - 1 && |es| == attempt - 1
        invariant v == Runs(w, agent, es) && Agrees(v)
        invariant At(v, if attempt <= 3 then Shutdown(attempt - 1, again) else if again then Shutdown(0, false) else Idle)
        invariant host.container == old(host.container) || host.container == None
        invariant InsideCall(es)
        invariant forall i: nat | old(attempts) <= i < attempts :: !outcomes.shutdown(i).0
      {
        var outcome := outcomes.shutdown(attempts);
        attempts := attempts + 1;
        if outcome.0 {
          host.container := None;
          return true, es, v;
        }
        if outcome.1 {
          host.container := None;
        }
        FailedAttempt(v, agent, attempt - 1, again, outcome.1);
        RunsOn(w, agent, es, ShutDown(false, outcome.1));
        es := es + [ShutDown(false, outcome.1)];
        v := Step(v, agent, ShutDown(false, outcome.1));
        attempt := attempt + 1;
      }
      return false, es, v;
    }

    /** The environment to shut down: the one Init set, or one made by name. */
    method Environment(ghost w: World, ghost again: bool) returns (ok: bool, ghost es: seq<Event>)
      requires Agrees(w) && (At(w, Idle) || At(w, Shutdown(0, again)))
      requires At(w, Idle) ==> !again
      requires At(w, Shutdown(0, again)) ==> runner
      modifies this`steps
      ensures Agrees(Runs(w, agent, es)) && At(Runs(w, agent, es), if ok then Shutdown(0, again) else Idle)
      ensures InsideCall(es)
      ensures ok == (runner || outcomes.step(old(steps)))
    {
      hide Inv, Step, Runs, InsideCall;
      NoSteps(w, agent);
      es, ok := [], true;
      if !runner {
        ok := Next();
      }
      if w.agents[agent].pc.Idle? {
        StoppingIdle(w, agent, ok);
        RunsOn(w, agent, [], CallStop(ok));
        es := [] + [CallStop(ok)];
      }
    }

    /** teardown: the lock is let go of only when the server is known to be gone. */
    method Teardown(ghost w: World, ghost again: bool) returns (ok: bool, ghost es: seq<Event>)
      requires Agrees(w) && (At(w, Idle) || At(w, Shutdown(0, again)))
      requires At(w, Idle) ==> !again
      requires At(w, Shutdown(0, again)) ==> runner
      modifies this`attempts, this`steps, host`container, host`holder, localState
      ensures Agrees(Runs(w, agent, es)) && At(Runs(w, agent, es), if again then Shutdown(0, false) else Idle)
      ensures InsideCall(es)
      ensures ok <==> (runner || outcomes.step(old(steps))) && Shuts(old(attempts), 3)
      ensures ok ==> host.container == None && (localState != null ==> !localState.open)
      ensures host.holder == if ok && localState != null && old(localState.open) then None else old(host.holder)
      ensures !ok && localState != null ==> localState.open == old(localState.open)
      ensures old(attempts) <= attempts <= old(attempts) + 3 && (!ok && runner ==> attempts == old(attempts) + 3)
      ensures host.container == old(host.container) || host.container == None
    {
      hide Inv, Step, Shuts, Runs, InsideCall;
      var environment;
      environment, es := Environment(w, again);
      if !environment {
        return false, es;
      }
      ghost var fs, u;
      ok, fs, u := RetryShutdown(Runs(w, agent, es), again);
      RunsConcat(w, agent, es, fs);
      es := es + fs;
      if ok {
        LastAttempt(u, agent, |fs|, again);
        RunsOn(w, agent, es, ShutDown(true, true));
        es := es + [ShutDown(true, true)];
        if localState != null {
          OpenHolds(u);
          localState.Close();
        }
      }
    }

    /** Stop and Destroy. */
    method Stop(ghost w: World) returns (ok: bool, ghost es: seq<Event>)
      requires Agrees(w) && At(w, Idle)
      modifies this`attempts, this`steps, host`container, host`holder, localState
      ensures Agrees(Runs(w, agent, es)) && At(Runs(w, agent, es), Idle)
      ensures InsideCall(es)
      ensures ok <==> (runner || outcomes.step(old(steps))) && Shuts(old(attempts), 3)
      ensures ok ==> host.container == None && !(host.holder.Some? && host.holder.value.0 == agent)
      ensures !ok ==> host.holder == old(host.holder)
    {
      ok, es := Teardown(w, false);
      OpenHolds(Runs(w, agent, es));
    }

    /** Init, from opening the state on; the result is whether it became ready. */
    method Init(ghost w: World) returns (ready: bool, ghost es: seq<Event>)
      requires Agrees(w) && At(w, Idle)
      modifies this, localState, host
      ensures Agrees(Runs(w, agent, es)) && At(Runs(w, agent, es), Idle)
      ensures es != [] && es[0] == CallInit(outcomes.step(old(steps))) && InsideCall(es[1..])
      ensures ready <==>
                && old(host.holder).None? && outcomes.step(old(steps)) && outcomes.step(old(steps) + 1)
                && outcomes.step(old(steps) + 2) && outcomes.step(old(steps) + 4)
      ensures ready ==> localState != null && localState.Holding() && host.container == host.holder
      ensures old(host.holder).Some? || !outcomes.step(old(steps)) ==>
                && host.holder == old(host.holder) && host.container == old(host.container)
                && localState == old(localState) && runner == old(runner)
      ensures old(host.holder).None? && !outcomes.step(old(steps) + 1) && !old(runner) ==>
                host.holder == None && host.container == old(host.container)
      ensures !ready && old(host.holder).None? && outcomes.step(old(steps)) && (outcomes.step(old(steps) + 1) || old(runner)) ==>
                var tries := if outcomes.step(old(steps) + 1) && outcomes.step(old(steps) + 2) then 6 else 3;
                var shut := Shuts(old(attempts), tries);
                (host.holder == None <==> shut) && (shut ==> host.container == None)
    {
      hide Inv, Step, Shuts, Runs, InsideCall;
      NoSteps(w, agent);
      var opens := Next();
      var state := OpenLocalVaultState(host, agent, opens);
      Opening(w, agent, opens);
      ghost var v := Step(w, agent, CallInit(opens));
      RunsOn(w, agent, [], CallInit(opens));
      ghost var call := [] + [CallInit(opens)];
      if state == null {
        assert call[1..] == [];
        return false, call;
      }
      localState := state;
      ghost var fs;
      ready, fs := BringUp(v);
      RunsConcat(w, agent, call, fs);
      es := call + fs;
      assert es[1..] == fs;
    }

    /** Init with the lock in hand. */
    method BringUp(ghost w: World) returns (ready: bool, ghost es: seq<Event>)
      requires Agrees(w) && At(w, Prepare) && localState != null && localState.Holding()
      modifies this`runner, this`attempts, this`steps, host`container, host`holder, localState
      ensures Agrees(Runs(w, agent, es)) && At(Runs(w, agent, es), Idle)
      ensures InsideCall(es)
      ensures ready <==> outcomes.step(old(steps)) && outcomes.step(old(steps) + 1) && outcomes.step(old(steps) + 3)
      ensures ready ==> localState.Holding() && host.container == host.holder
      ensures !outcomes.step(old(steps)) && !old(runner) ==> host.holder == None && host.container == old(host.container)
      ensures !ready && (outcomes.step(old(steps)) || old(runner)) ==>
                var tries := if outcomes.step(old(steps)) && outcomes.step(old(steps) + 1) then 6 else 3;
                var shut := Shuts(old(attempts), tries);
                (host.holder == None <==> shut) && (shut ==> host.container == None)
    {
      hide Inv, Step, Shuts, Runs, InsideCall;
      var prepared;
      prepared, es := PrepareContainer(w);
      ready := false;
      if prepared {
        ghost var gs;
        ready, gs := StartAndBootstrap(Runs(w, agent, es));
        RunsConcat(w, agent, es, gs);
        es := es + gs;
      }
    }

    /** The container's environment is made and configured; on failure Init's deferred
        clean-up runs. */
    method PrepareContainer(ghost w: World) returns (prepared: bool, ghost es: seq<Event>)
      requires Agrees(w) && At(w, Prepare) && localState != null && localState.Holding()
      modifies this`runner, this`attempts, this`steps, host`container, host`holder, localState
      ensures Agrees(Runs(w, agent, es)) && At(Runs(w, agent, es), if prepared then Pc.StartContainer else Idle)
      ensures InsideCall(es)
      ensures prepared == outcomes.step(old(steps)) && runner == (old(runner) || prepared)
      ensures prepared ==> localState.Holding() && steps == old(steps) + 1 && attempts == old(attempts) && host.container == old(host.container)
      ensures !prepared && !old(runner) ==> host.holder == None && host.container == old(host.container)
      ensures !prepared && old(runner) ==>
                (host.holder == None <==> Shuts(old(attempts), 3)) && (Shuts(old(attempts), 3) ==> host.container == None)
    {
      hide Inv, Step, Shuts, Runs, InsideCall;
      NoSteps(w, agent);
      prepared := Next();
      if prepared {
        runner := true;
        Preparing(w, agent, true);
        RunsOn(w, agent, [], Prepared(true));
        es := [] + [Prepared(true)];
      } else {
        es := CleanUp(w);
      }
    }

    method CleanUp(ghost w: World) returns (ghost es: seq<Event>)
      requires Agrees(w) && At(w, Prepare) && localState != null && localState.Holding()
      modifies this`attempts, this`steps, host`container, host`holder, localState
      ensures Agrees(Runs(w, agent, es)) && At(Runs(w, agent, es), Idle)
      ensures InsideCall(es)
      ensures !runner ==> host.holder == None && host.container == old(host.container)
      ensures runner ==>
                (host.holder == None <==> Shuts(old(attempts), 3)) && (Shuts(old(attempts), 3) ==> host.container == None)
    {
      hide Inv, Step, Shuts, Runs, InsideCall;
      NoSteps(w, agent);
      Preparing(w, agent, false);
      RunsOn(w, agent, [], Prepared(false));
      es := [] + [Prepared(false)];
      if runner {
        ghost var v := Step(w, agent, Prepared(false));
        var _, fs := Teardown(v, false);
        RunsConcat(w, agent, es, fs);
        es := es + fs;
      } else {
        localState.Close();
      }
    }

    /** The container is started: its event, and where it leaves the machine. */
    method StartContainer(ghost w: World) returns (started: bool, ghost e: Event)
      requires Agrees(w) && At(w, Pc.StartContainer) && runner && localState != null && localState.Holding()
      modifies this`steps, host`container
      ensures e.Started? && started == outcomes.step(old(steps)) && steps == old(steps) + 2
      ensures Agrees(Step(w, agent, e)) && At(Step(w, agent, e), if started then Bootstrap else Shutdown(0, false))
      ensures started ==> host.container == host.holder
    {
      hide Inv, Step;
      started := Next();
      var runs := Next();     // the container may run although its start reported failure
      if started || runs {
        host.container := Some((agent, localState.id));
      }
      Starting(w, agent, runs, started);
      e := Started(runs, started);
    }

    method StartAndBootstrap(ghost w: World) returns (ready: bool, ghost es: seq<Event>)
      requires Agrees(w) && At(w, Pc.StartContainer) && runner && localState != null && localState.Holding()
      modifies this`attempts, this`steps, host`container, host`holder, localState
      ensures Agrees(Runs(w, agent, es)) && At(Runs(w, agent, es), Idle)
      ensures InsideCall(es)
      ensures ready <==> outcomes.step(old(steps)) && outcomes.step(old(steps) + 2)
      ensures ready ==> localState.Holding() && host.container == host.holder
      ensures !ready ==>
                var shut := Shuts(old(attempts), if outcomes.step(old(steps)) then 6 else 3);
                (host.holder == None <==> shut) && (shut ==> host.container == None)
    {
      hide Inv, Step, Shuts, Runs, InsideCall;
      NoSteps(w, agent);
      var started, e := StartContainer(w);
      RunsOn(w, agent, [], e);
      es := [] + [e];
      ghost var v := Step(w, agent, e);
      if !started {
        var _, fs := Teardown(v, false);
        RunsConcat(w, agent, es, fs);
        return false, es + fs;
      }
      var bootstrapped := Next();
      Bootstrapping(v, agent, bootstrapped);
      RunsOn(w, agent, es, Bootstrapped(bootstrapped));
      es, v := es + [Bootstrapped(bootstrapped)], Step(v, agent, Bootstrapped(bootstrapped));
      if !bootstrapped {
        var fs := TeardownTwice(v);
        RunsConcat(w, agent, es, fs);
        return false, es + fs;
      }
      return true, es;
    }

    /** Once where bootstrap fails, and once more as Init returns. */
    method TeardownTwice(ghost w: World) returns (ghost es: seq<Event>)
      requires Agrees(w) && At(w, Shutdown(0, true)) && runner && localState != null && localState.Holding()
      modifies this`attempts, this`steps, host`container, host`holder, localState
      ensures Agrees(Runs(w, agent, es)) && At(Runs(w, agent, es), Idle)
      ensures InsideCall(es)
      ensures var shut := Shuts(old(attempts), 6);
              (host.holder == None <==> shut) && (shut ==> host.container == None)
    {
      hide Inv, Step, Shuts, Runs, InsideCall;
      NoSteps(w, agent);
      SixTries(attempts);
      var first, fs := Teardown(w, true);
      var second, gs := Teardown(Runs(w, agent, fs), false);
      RunsConcat(w, agent, fs, gs);
      es := fs + gs;
    }
  }

  // ------------------------------------------------------------ single steps of one agent

  lemma Opening(w: World, a: nat, opens: bool)
    requires Inv(w) && a < |w.agents| && w.agents[a].pc.Idle?
    ensures Inv(Step(w, a, CallInit(opens)))
    ensures Step(w, a, CallInit(opens)) ==
            if !opens || w.holder.Some? then w
            else w.(agents := w.agents[a := w.agents[a].(pc := Prepare, local := Some(Handle(w.nextId, true)))],
                    holder := Some((a, w.nextId)), nextId := w.nextId + 1)
  {
    StepKeepsInv(w, a, CallInit(opens));
  }

  lemma Preparing(w: World, a: nat, ok: bool)
    requires Inv(w) && a < |w.agents| && w.agents[a].pc.Prepare?
    ensures var v := Step(w, a, Prepared(ok)); var agent := w.agents[a];
            && Inv(v) && v.container == w.container && v.nextId == w.nextId && a < |v.agents|
            && agent.local.Some?
            && (if ok then v.agents[a] == agent.(pc := StartContainer, runner := true) && v.holder == w.holder
                else if agent.runner then v.agents[a] == agent.(pc := Shutdown(0, false)) && v.holder == w.holder
                else v.agents[a] == agent.(pc := Idle, local := Some(Handle(agent.local.value.id, false))) && v.holder == None)
  {
    StepKeepsInv(w, a, Prepared(ok));
  }

  lemma Starting(w: World, a: nat, runs: bool, ok: bool)
    requires Inv(w) && a < |w.agents| && w.agents[a].pc.StartContainer?
    ensures var v := Step(w, a, Started(runs, ok)); var agent := w.agents[a];
            && Inv(v) && v.holder == w.holder && v.nextId == w.nextId && a < |v.agents| && agent.local.Some?
            && v.container == (if runs || ok then Some((a, agent.local.value.id)) else w.container)
            && v.agents[a] == agent.(pc := if ok then Bootstrap else Shutdown(0, false))
  {
    StepKeepsInv(w, a, Started(runs, ok));
  }

  lemma Bootstrapping(w: World, a: nat, ok: bool)
    requires Inv(w) && a < |w.agents| && w.agents[a].pc.Bootstrap?
    ensures var v := Step(w, a, Bootstrapped(ok));
            && Inv(v) && v.holder == w.holder && v.nextId == w.nextId && v.container == w.container && a < |v.agents|
            && v.agents[a] == w.agents[a].(pc := if ok then Idle else Shutdown(0, true))
  {
    StepKeepsInv(w, a, Bootstrapped(ok));
  }

  lemma StoppingIdle(w: World, a: nat, ok: bool)
    requires Inv(w) && a < |w.agents| && w.agents[a].pc.Idle?
    ensures var v := Step(w, a, CallStop(ok));
            && Inv(v) && v.holder == w.holder && v.nextId == w.nextId && v.container == w.container && a < |v.agents|
            && v.agents[a] == w.agents[a].(pc := if w.agents[a].runner || ok then Shutdown(0, false) else Idle)
  {
    StepKeepsInv(w, a, CallStop(ok));
  }

  lemma FailedAttempt(w: World, a: nat, attempt: nat, again: bool, gone: bool)
    requires Inv(w) && a < |w.agents| && w.agents[a].pc == Shutdown(attempt, again)
    ensures var v := Step(w, a, ShutDown(false, gone));
            && Inv(v) && v.holder == w.holder && v.nextId == w.nextId && a < |v.agents|
            && v.container == (if gone then None else w.container)
            && v.agents[a] == w.agents[a].(pc := if attempt < 2 then Shutdown(attempt + 1, again)
                                                 else if again then Shutdown(0, false) else Idle)
  {
    StepKeepsInv(w, a, ShutDown(false, gone));
  }

  lemma LastAttempt(w: World, a: nat, attempt: nat, again: bool)
    requires Inv(w) && a < |w.agents| && w.agents[a].pc == Shutdown(attempt, again)
    ensures var v := Step(w, a, ShutDown(true, true)); var agent := w.agents[a];
            && Inv(v) && v.container == None && v.nextId == w.nextId && a < |v.agents|
            && v.holder == (if agent.local.Some? && agent.local.value.open then None else w.holder)
            && v.agents[a].pc == (if again then Shutdown(0, false) else Idle) && v.agents[a].runner == agent.runner
            && v.agents[a].local == (if agent.local.Some? then Some(Handle(agent.local.value.id, false)) else None)
  {
    StepKeepsInv(w, a, ShutDown(true, true));
  }
}
