/** provision_transit (provision/provision.sh): the transit engine and its one key,
    created once and never rewritten, under any number of concurrent runs. */
module Transit {
  import opened VaultModel

  /** How one call of the vault CLI went: it was answered, or it failed without
      reaching the server. */
  datatype Answer = Answered | Lost

  datatype Pc =
    | ReadMount | EnableEngine | RereadMount
    | ReadKey | CreateTheKey | RereadKey
    | Ready
    | CannotEnable | Conflict(kind: string) | CannotCreate
  {
    predicate Finished() { Ready? || CannotEnable? || Conflict? || CannotCreate? }

    /** Calls left, at most, before the run finishes. */
    function Rank(): nat {
      match this
      case ReadMount => 6
      case EnableEngine => 5
      case RereadMount => 4
      case ReadKey => 3
      case CreateTheKey => 2
      case RereadKey => 1
      case _ => 0
    }
  }

  /** The type check behind a read of sys/mounts/transit that succeeded. */
  function CheckKind(kind: string): Pc {
    if kind == "transit" then ReadKey else Conflict(kind)
  }

  predicate MountReadable(v: Vault, auth: Token, path: string, a: Answer) {
    a.Answered? && v.Allows(auth) && path in v.mounts
  }

  predicate KeyReadable(v: Vault, auth: Token, key: string, a: Answer) {
    a.Answered? && v.Allows(auth) && v.Mounted(TRANSIT, "transit") && key in v.keys
  }

  /** One call of the script and what it does next. Writes ignore their own outcome:
      only the read behind them counts. */
  function Step(auth: Token, key: string, v: Vault, pc: Pc, a: Answer): (Vault, Pc) {
    match pc
    case ReadMount =>
      (v, if MountReadable(v, auth, TRANSIT, a) then CheckKind(v.mounts[TRANSIT].kind) else EnableEngine)
    case EnableEngine =>
      (if a.Answered? then EnableMount(v, auth, TRANSIT, TRANSIT_ENGINE) else v, RereadMount)
    case RereadMount =>
      (v, if MountReadable(v, auth, TRANSIT, a) then CheckKind(v.mounts[TRANSIT].kind) else CannotEnable)
    case ReadKey =>
      (v, if KeyReadable(v, auth, key, a) then Ready else CreateTheKey)
    case CreateTheKey =>
      (if a.Answered? then CreateKey(v, auth, key, KEY_TYPE) else v, RereadKey)
    case RereadKey =>
      (v, if KeyReadable(v, auth, key, a) then Ready else CannotCreate)
    case _ => (v, pc)
  }

  // ------------------------------------------------------------- any number of runs

  datatype Race = Race(vault: Vault, runs: seq<Pc>)

  /** One run makes its next call, or somebody else grows the Vault. */
  datatype Event = Turn(run: nat, answer: Answer) | Others(vault: Vault)

  function RaceStep(auth: Token, key: string, s: Race, e: Event): Race {
    match e
    case Turn(i, a) =>
      if i < |s.runs| then
        var (v, pc) := Step(auth, key, s.vault, s.runs[i], a);
        Race(v, s.runs[i := pc])
      else s
    case Others(w) => if Grows(s.vault, w) then s.(vault := w) else s
  }

  function RaceExec(auth: Token, key: string, s: Race, es: seq<Event>): Race
    decreases |es|
  {
    if es == [] then s
    else RaceStep(auth, key, RaceExec(auth, key, s, es[..|es| - 1]), es[|es| - 1])
  }

  function Start(v: Vault, n: nat): Race {
    Race(v, seq(n, _ => ReadMount))
  }

  /** What a run has established by the time it stands at `pc`. */
  predicate Established(v: Vault, key: string, pc: Pc) {
    && (pc.ReadKey? || pc.CreateTheKey? || pc.RereadKey? || pc.Ready? ==> v.Mounted(TRANSIT, "transit"))
    && (pc.Ready? ==> key in v.keys)
    && (pc.Conflict? ==> TRANSIT in v.mounts && v.mounts[TRANSIT].kind == pc.kind && pc.kind != "transit")
  }

  predicate RaceInv(key: string, s: Race) {
    forall i | 0 <= i < |s.runs| :: Established(s.vault, key, s.runs[i])
  }

  lemma StepEstablishes(auth: Token, key: string, v: Vault, pc: Pc, a: Answer)
    requires Established(v, key, pc)
    ensures Established(Step(auth, key, v, pc, a).0, key, Step(auth, key, v, pc, a).1)
    ensures KeysKept(v, Step(auth, key, v, pc, a).0) && MountsKept(v, Step(auth, key, v, pc, a).0)
    ensures Step(auth, key, v, pc, a).0.live == v.live && Step(auth, key, v, pc, a).0.issued == v.issued
  {
  }

  lemma EstablishedKept(v: Vault, w: Vault, key: string, pc: Pc)
    requires Established(v, key, pc) && KeysKept(v, w) && MountsKept(v, w)
    ensures Established(w, key, pc)
  {
  }

  lemma RaceStepInv(auth: Token, key: string, s: Race, e: Event)
    requires RaceInv(key, s)
    ensures var t := RaceStep(auth, key, s, e);
            RaceInv(key, t) && KeysKept(s.vault, t.vault) && MountsKept(s.vault, t.vault) && |t.runs| == |s.runs|
  {
    var t := RaceStep(auth, key, s, e);
    if e.Turn? && e.run < |s.runs| {
      StepEstablishes(auth, key, s.vault, s.runs[e.run], e.answer);
    }
    forall i | 0 <= i < |t.runs| ensures Established(t.vault, key, t.runs[i]) {
      EstablishedKept(s.vault, t.vault, key, s.runs[i]);
    }
  }

  /** Lost races converge: however the calls of any number of runs interleave and
      whichever of them fail, a run that ends well sees a transit engine and the key,
      a conflicting mount is reported as such and survives, and no mount and no key
      that ever existed is changed. */
  lemma {:induction false} LostRacesConverge(auth: Token, key: string, v: Vault, n: nat, es: seq<Event>)
    ensures var s := RaceExec(auth, key, Start(v, n), es);
            && |s.runs| == n
            && RaceInv(key, s)
            && KeysKept(v, s.vault) && MountsKept(v, s.vault)
    decreases |es|
  {
    if es != [] {
      LostRacesConverge(auth, key, v, n, es[..|es| - 1]);
      RaceStepInv(auth, key, RaceExec(auth, key, Start(v, n), es[..|es| - 1]), es[|es| - 1]);
    }
  }

  predicate OnlyTurns(es: seq<Event>) {
    forall i | 0 <= i < |es| :: es[i].Turn?
  }

  /** Without outside help, the runs together mint the key's material at most once,
      and exactly when they are what created the key. */
  lemma {:induction false} MaterialMintedOnce(auth: Token, key: string, v: Vault, n: nat, es: seq<Event>)
    requires OnlyTurns(es)
    ensures var w := RaceExec(auth, key, Start(v, n), es).vault;
            && w.minted == v.minted + (if key in w.keys && key !in v.keys then 1 else 0)
            && w.keys.Keys <= v.keys.Keys + {key}
            && (key in w.keys && key !in v.keys ==> w.keys[key] == TransitKey(KEY_TYPE, v.minted))
            && KeysKept(v, w)
    decreases |es|
  {
    if es != [] {
      MaterialMintedOnce(auth, key, v, n, es[..|es| - 1]);
    }
  }

  /** With a mount of another kind at transit/, no run ends well and nothing moves. */
  lemma {:induction false} ConflictStopsEveryRun(auth: Token, key: string, v: Vault, n: nat, es: seq<Event>)
    requires TRANSIT in v.mounts && v.mounts[TRANSIT].kind != "transit" && OnlyTurns(es)
    ensures var s := RaceExec(auth, key, Start(v, n), es);
            s.vault == v && |s.runs| == n && forall i | 0 <= i < n :: !s.runs[i].Ready?
    decreases |es|
  {
    if es != [] {
      ConflictStopsEveryRun(auth, key, v, n, es[..|es| - 1]);
      LostRacesConverge(auth, key, v, n, es[..|es| - 1]);
    }
  }

  // ----------------------------------------------------------------------- progress

  /** How often run i has been given a turn. */
  function Turns(es: seq<Event>, i: nat): nat
    decreases |es|
  {
    if es == [] then 0
    else Turns(es[..|es| - 1], i) + if es[|es| - 1].Turn? && es[|es| - 1].run == i then 1 else 0
  }

  predicate AllAnswered(es: seq<Event>) {
    forall i | 0 <= i < |es| :: es[i].Turn? ==> es[i].answer.Answered?
  }

  /** A run on its way to success: nothing is in its way at this point. */
  predicate OnTrack(v: Vault, auth: Token, key: string, pc: Pc) {
    && v.Allows(auth)
    && Established(v, key, pc)
    && (TRANSIT in v.mounts ==> v.mounts[TRANSIT].kind == "transit")
    && (pc.RereadMount? ==> TRANSIT in v.mounts)
    && (pc.RereadKey? ==> key in v.keys)
    && !pc.CannotEnable? && !pc.CannotCreate? && !pc.Conflict?
  }

  /** Somebody else mounted another engine at transit/. */
  predicate Interferes(es: seq<Event>) {
    exists i | 0 <= i < |es| :: es[i].Others?
                                && TRANSIT in es[i].vault.mounts && es[i].vault.mounts[TRANSIT].kind != "transit"
  }

  lemma StepOnTrack(auth: Token, key: string, v: Vault, pc: Pc)
    requires OnTrack(v, auth, key, pc)
    ensures OnTrack(Step(auth, key, v, pc, Answered).0, auth, key, Step(auth, key, v, pc, Answered).1)
    ensures Step(auth, key, v, pc, Answered).1.Rank() <= if pc.Rank() == 0 then 0 else pc.Rank() - 1
  {
  }

  /** Every run whose calls are answered succeeds within six of its own calls, no
      matter what the other runs do in between. */
  lemma {:induction false} EveryRunSucceeds(auth: Token, key: string, v: Vault, n: nat, es: seq<Event>, i: nat)
    requires v.Allows(auth) && (TRANSIT in v.mounts ==> v.mounts[TRANSIT].kind == "transit")
    requires AllAnswered(es) && !Interferes(es) && i < n
    ensures var s := RaceExec(auth, key, Start(v, n), es);
            && |s.runs| == n
            && (forall j | 0 <= j < n :: OnTrack(s.vault, auth, key, s.runs[j]))
            && s.runs[i].Rank() <= (if Turns(es, i) < 6 then 6 - Turns(es, i) else 0)
            && (Turns(es, i) >= 6 ==> s.runs[i].Ready?)
    decreases |es|
  {
    if es != [] {
      var before, e := es[..|es| - 1], es[|es| - 1];
      assert forall k | 0 <= k < |before| :: before[k] == es[k];
      EveryRunSucceeds(auth, key, v, n, before, i);
      var s := RaceExec(auth, key, Start(v, n), before);
      assert !(e.Others? && TRANSIT in e.vault.mounts && e.vault.mounts[TRANSIT].kind != "transit");
      RaceStepOnTrack(auth, key, s, e);
    }
  }

  lemma RaceStepOnTrack(auth: Token, key: string, s: Race, e: Event)
    requires forall j | 0 <= j < |s.runs| :: OnTrack(s.vault, auth, key, s.runs[j])
    requires e.Turn? ==> e.answer.Answered?
    requires e.Others? && TRANSIT in e.vault.mounts ==> e.vault.mounts[TRANSIT].kind == "transit"
    ensures var t := RaceStep(auth, key, s, e);
            && |t.runs| == |s.runs|
            && (forall j | 0 <= j < |s.runs| ::
                  && OnTrack(t.vault, auth, key, t.runs[j])
                  && t.runs[j].Rank() <= (if e.Turn? && e.run == j && s.runs[j].Rank() > 0 then s.runs[j].Rank() - 1 else s.runs[j].Rank()))
  {
    var t := RaceStep(auth, key, s, e);
    if e.Turn? && e.run < |s.runs| {
      StepOnTrack(auth, key, s.vault, s.runs[e.run]);
      StepEstablishes(auth, key, s.vault, s.runs[e.run], e.answer);
    }
    forall j | 0 <= j < |s.runs| && t.runs[j] == s.runs[j]
      ensures t.vault.Allows(auth) && Established(t.vault, key, s.runs[j])
    {
      EstablishedKept(s.vault, t.vault, key, s.runs[j]);
    }
  }
}
