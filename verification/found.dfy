/** bootstrap over whatever it finds: any Vault and any disk, not only those its own
    histories leave. */
module FoundCustody {
  import opened Options
  import opened VaultModel
  import opened Storage
  import opened Bootstrap
  import Custody

  // ------------------------------------------------------------ custody as it is found

  /** Nothing has moved, and no initialization is asked for. */
  predicate Refusing(s: State, vault: Vault, barrier: string, disk: Disk) {
    && s.vault == vault && s.barrier == barrier && s.disk == disk
    && (s.pc.LoadCustody? || s.pc.Failed? || (s.pc.GetInit? && s.pc.custody.Some?))
  }

  lemma DamagedStep(s: State, e: Event)
    requires Refusing(s, s.vault, s.barrier, s.disk) && !s.pc.GetInit? && !e.PowerLoss? && Load(s.disk).Invalid?
    ensures Refusing(Step(s, e), s.vault, s.barrier, s.disk) && !Step(s, e).pc.GetInit?
  {
  }

  /** From every Vault and every disk: as long as credentials.json is there and not
      complete, and the power stays on, no bootstrap succeeds, asks for an
      initialization, or changes Vault or disk. */
  lemma {:induction false} DamagedCustodyRefused(s: State, preferred: Token, reseal: bool, es: seq<Event>)
    requires CredentialsFile in View(s.disk) && forall c :: !HoldsInFull(s.disk, c)
    requires PowerStays(es)
    ensures var t := Exec(Step(s, Restart(preferred, reseal)), es);
            Refusing(t, s.vault, s.barrier, s.disk) && !t.pc.GetInit?
    decreases |es|
  {
    LoadSays(s.disk);
    if es != [] {
      assert PowerStays(es[..|es| - 1]);
      DamagedCustodyRefused(s, preferred, reseal, es[..|es| - 1]);
      DamagedStep(Exec(Step(s, Restart(preferred, reseal)), es[..|es| - 1]), es[|es| - 1]);
    }
  }

  lemma MissingStorageStep(s: State, e: Event)
    requires Refusing(s, s.vault, s.barrier, s.disk) && !e.PowerLoss? && Load(s.disk).Valid? && !s.vault.Initialized()
    ensures Refusing(Step(s, e), s.vault, s.barrier, s.disk)
  {
  }

  /** Likewise where custody is complete and Vault's storage is not initialized. */
  lemma {:induction false} MissingStorageRefused(s: State, c: Credentials, preferred: Token, reseal: bool, es: seq<Event>)
    requires HoldsInFull(s.disk, c) && !s.vault.Initialized()
    requires PowerStays(es)
    ensures Refusing(Exec(Step(s, Restart(preferred, reseal)), es), s.vault, s.barrier, s.disk)
    decreases |es|
  {
    LoadSays(s.disk);
    if es != [] {
      assert PowerStays(es[..|es| - 1]);
      MissingStorageRefused(s, c, preferred, reseal, es[..|es| - 1]);
      MissingStorageStep(Exec(Step(s, Restart(preferred, reseal)), es[..|es| - 1]), es[|es| - 1]);
    }
  }

  // ------------------------------------------------------------ no error is passed over

  predicate OneCall(es: seq<Event>) {
    forall i | 0 <= i < |es| :: !es[i].Restart? && !es[i].PowerLoss?
  }

  /** The call goes on from here only with this answer; sys/init may be asked again
      unless the call is cancelled. */
  predicate Fine(s: State, e: Event) {
    if s.pc.PostInit? then e.InitDone?
    else if s.pc.GetInit? then !e.Cancelled?
    else s.pc.Done? || s.pc.Failed? || s.pc.Stopped? || e.Ok?
  }

  ghost predicate AllFine(s: State, es: seq<Event>)
    decreases |es|
  {
    es == [] || (AllFine(s, es[..|es| - 1]) && Fine(Exec(s, es[..|es| - 1]), es[|es| - 1]))
  }

  /** Failed, or on the way there to take a temporary file along. */
  predicate Failing(pc: Pc) {
    pc.Failed? || (pc.Saving? && Custody.Doomed(pc.save))
  }

  predicate SaveUnfinished(pc: Pc) {
    pc.Saving? ==> !pc.save.Finished()
  }

  lemma SaveErrorFails(s: State, e: Event)
    requires s.pc.Saving? && SaveUnfinished(s.pc) && (Failing(s.pc) || !e.Ok?)
    ensures Failing(StepSave(s, e).pc)
  {
    var (d, save) := Custody.Step(s.disk, s.pc.save, s.c, AsIo(e));
    if Failing(s.pc) {
      Custody.DoomedStays(s.disk, s.pc.save, s.c, AsIo(e));
    } else {
      assert save.NotSaved? || (save.CloseTemp? && save.failed);
    }
  }

  lemma ErrorFails(s: State, e: Event)
    requires !e.Restart? && !e.PowerLoss? && SaveUnfinished(s.pc)
    ensures SaveUnfinished(Step(s, e).pc)
    ensures Failing(s.pc) || !Fine(s, e) ==> Failing(Step(s, e).pc)
  {
    if s.pc.Saving? {
      assert Step(s, e) == StepSave(s, e);
      if Failing(s.pc) || !e.Ok? { SaveErrorFails(s, e); }
    } else if s.pc.LoadCustody? {
      assert Step(s, e) == StepLoad(s, e);
    } else if s.pc.GetInit? {
      assert Step(s, e) == StepGetInit(s, e);
    } else if s.pc.PostInit? {
      assert Step(s, e) == StepPostInit(s, e);
    } else {
      assert Step(s, e) == StepRequest(s, e);
    }
  }

  /** From every state: a call in which any request or file operation did not work, was
      done without its answer arriving, or was cancelled, can only fail. */
  lemma {:induction false} ErrorsFail(s: State, preferred: Token, reseal: bool, es: seq<Event>)
    requires OneCall(es)
    ensures var s' := Step(s, Restart(preferred, reseal));
            AllFine(s', es) || Failing(Exec(s', es).pc)
    ensures SaveUnfinished(Exec(Step(s, Restart(preferred, reseal)), es).pc)
    decreases |es|
  {
    hide Step, Fine, Failing, SaveUnfinished;
    if es == [] {
      BeginsLoading(s, preferred, reseal);
    } else {
      assert OneCall(es[..|es| - 1]);
      ErrorsFail(s, preferred, reseal, es[..|es| - 1]);
      ErrorFails(Exec(Step(s, Restart(preferred, reseal)), es[..|es| - 1]), es[|es| - 1]);
    }
  }

  // ------------------------------------------------------------ any custody at all

  /** Where an unconfigured call over stored credentials c stands, and what it has seen. */
  predicate Over(s: State, v: Vault, disk: Disk, c: Credentials) {
    && s.preferred == "" && s.disk == disk
    && s.vault.live == v.live && s.vault.issued == v.issued
    && (s.vault.mounts == v.mounts || (SECRET !in v.mounts && s.vault.mounts == v.mounts[SECRET := KV2]))
    && (s.pc.LoadCustody? || s.pc.Failed? || (s.pc.GetInit? && s.pc.custody == Some(c)) || (s.c == c && PastInit(s, v)))
  }

  /** Beyond sys/init, the call knows that Vault is initialized; beyond unsealing, that
      the key fits; beyond the mounts, that the root token works and secret/ is KV v2. */
  predicate PastInit(s: State, v: Vault) {
    && v.Initialized()
    && (s.pc.Unseal? || (!s.sealed && s.c.unseal == s.barrier))
    && (s.pc.Unseal? || s.pc.GetMounts? || (s.c.root in v.live && KvFits(v)))
    && (s.pc.Unseal? || s.pc.GetMounts? || s.pc.PostMount? || s.pc.LookupSelf? || s.pc.Done?)
    && (s.pc.PostMount? ==> s.vault.mounts == v.mounts && SECRET !in v.mounts)
    && (s.pc.Done? ==> s.pc.token in v.live && s.pc.token == if s.c.access == "" then s.c.root else s.c.access)
  }

  predicate KvFits(v: Vault) {
    SECRET in v.mounts ==> v.mounts[SECRET].kind == "kv" && v.mounts[SECRET].version2
  }

  /** The credentials fit the server: it is initialized, the unseal key is its own, the
      root token works, secret/ is free or KV v2, and the token to publish is known. */
  predicate Fits(v: Vault, barrier: string, c: Credentials) {
    && v.Initialized() && c.unseal == barrier && c.root in v.live && KvFits(v)
    && (if c.access == "" then c.root else c.access) in v.live
  }

  lemma OverUnseal(s: State, e: Event, v: Vault, c: Credentials)
    requires Over(s, v, s.disk, c) && e.Ok? && s.pc.Unseal?
    ensures Over(StepRequest(s, e), v, s.disk, c)
    ensures Fits(v, s.barrier, c) ==> StepRequest(s, e).pc.GetMounts?
  {
  }

  lemma OverMounts(s: State, e: Event, v: Vault, c: Credentials)
    requires Over(s, v, s.disk, c) && e.Ok? && (s.pc.GetMounts? || s.pc.PostMount?)
    ensures Over(StepRequest(s, e), v, s.disk, c)
    ensures Fits(v, s.barrier, c) ==> StepRequest(s, e).pc.LookupSelf? || (s.pc.GetMounts? && StepRequest(s, e).pc.PostMount?)
  {
  }

  lemma OverLookup(s: State, e: Event, v: Vault, c: Credentials)
    requires Over(s, v, s.disk, c) && e.Ok? && s.pc.LookupSelf?
    ensures Over(StepRequest(s, e), v, s.disk, c)
    ensures Fits(v, s.barrier, c) ==> StepRequest(s, e).pc.Done?
  {
  }

  lemma OverInit(s: State, e: Event, v: Vault, c: Credentials)
    requires Over(s, v, s.disk, c) && (s.pc.LoadCustody? || s.pc.GetInit?) && Calm(s, e) && Load(s.disk) == Valid(c)
    ensures Over(Answered(s, e), v, s.disk, c) && Answered(s, e).barrier == s.barrier
    ensures Fits(v, s.barrier, c) && (s.pc.GetInit? && !e.Ok? ==> s.pc.attempt + 1 < ATTEMPTS) ==>
              !Answered(s, e).pc.Failed? && Rank(Answered(s, e).pc) < Rank(s.pc)
  {
    if s.pc.LoadCustody? {
      assert Answered(s, e) == StepLoad(s, e);
    } else {
      assert Answered(s, e) == StepGetInit(s, e);
    }
  }

  lemma OverStep(s: State, e: Event, v: Vault, c: Credentials)
    requires Over(s, v, s.disk, c) && Calm(s, e) && Load(s.disk) == Valid(c)
    ensures Over(Step(s, e), v, s.disk, c) && Step(s, e).barrier == s.barrier
    ensures s.pc.Done? ==> Step(s, e) == s
    ensures Fits(v, s.barrier, c) && (s.pc.GetInit? && !e.Ok? ==> s.pc.attempt + 1 < ATTEMPTS) && !s.pc.Failed? && !s.pc.Done? ==>
              !Step(s, e).pc.Failed? && Rank(Step(s, e).pc) < Rank(s.pc)
  {
    hide Fits, PastInit;
    if s.pc.LoadCustody? || s.pc.GetInit? {
      OverInit(s, e, v, c);
    } else {
      OverPastInit(s, v, c);
      if s.pc.Unseal? {
        OverUnseal(s, e, v, c);
      } else if s.pc.GetMounts? || s.pc.PostMount? {
        OverMounts(s, e, v, c);
      } else if s.pc.LookupSelf? {
        OverLookup(s, e, v, c);
      }
    }
  }

  lemma OverPastInit(s: State, v: Vault, c: Credentials)
    requires Over(s, v, s.disk, c) && !s.pc.LoadCustody? && !s.pc.GetInit?
    ensures s.pc.Unseal? || s.pc.GetMounts? || s.pc.PostMount? || s.pc.LookupSelf? || s.pc.Done? || s.pc.Failed?
  {
  }

  lemma {:induction false} OverRun(s: State, v: Vault, c: Credentials, es: seq<Event>)
    requires Over(s, v, s.disk, c) && s.pc.LoadCustody? && CalmRun(s, es) && Load(s.disk) == Valid(c)
    ensures var t := Exec(s, es);
            && Over(t, v, s.disk, c) && t.barrier == s.barrier
            && (Fits(v, s.barrier, c) && UpInTime(s, es) ==> !t.pc.Failed? && (t.pc.Done? || Rank(t.pc) + |es| <= Rank(s.pc)))
    decreases |es|
  {
    hide Step, Over, Fits, Rank;
    if es != [] {
      OverRun(s, v, c, es[..|es| - 1]);
      SameDisk(Exec(s, es[..|es| - 1]), v, s.disk, c);
      OverStep(Exec(s, es[..|es| - 1]), es[|es| - 1], v, c);
    }
  }

  lemma SameDisk(s: State, v: Vault, disk: Disk, c: Credentials)
    requires Over(s, v, disk, c)
    ensures s.disk == disk
  {
  }

  lemma OverAtTheEnd(t: State, v: Vault, disk: Disk, c: Credentials)
    requires Over(t, v, disk, c) && t.pc.Done?
    ensures Fits(v, t.barrier, c) && t.pc.token == if c.access == "" then c.root else c.access
  {
  }

  lemma OverAndUnfinished(t: State, v: Vault, disk: Disk, c: Credentials)
    requires Over(t, v, disk, c) && Rank(t.pc) == 0
    ensures t.pc.Done? || t.pc.Failed?
  {
  }

  /** From every Vault and every disk that holds complete credentials, whoever's they
      are: an answered bootstrap without a configured token succeeds if and only if the
      credentials fit the server and it is up in time; it publishes the stored access
      token, or the root token where none is stored. */
  lemma {:induction false} CustodyPublishedExactlyWhen(s: State, c: Credentials, es: seq<Event>)
    requires HoldsInFull(s.disk, c)
    requires CalmRun(Step(s, Restart("", true)), es) && |es| >= LONGEST_RUN
    ensures var s' := Step(s, Restart("", true));
            var t := Exec(s', es);
            && (t.pc.Done? <==> Fits(s.vault, s.barrier, c) && UpInTime(s', es))
            && (t.pc.Done? ==> t.pc.token == if c.access == "" then c.root else c.access)
  {
    hide Exec, CalmRun, UpInTime, Accepted, Fits;
    LoadSays(s.disk);
    var s' := Step(s, Restart("", true));
    OverRun(s', s.vault, c, es);
    var t := Exec(s', es);
    if t.pc.Done? {
      OverAtTheEnd(t, s.vault, s.disk, c);
      if !UpInTime(s', es) { HinderedRunFails(s', es); }
    } else if Fits(s.vault, s.barrier, c) && UpInTime(s', es) {
      OverAndUnfinished(t, s.vault, s.disk, c);
    }
  }

  lemma AcceptedStep(s: State, e: Event)
    requires s.pc.Done? ==> s.vault.Allows(s.pc.token) && !s.sealed
    ensures Step(s, e).pc.Done? ==> Step(s, e).vault.Allows(Step(s, e).pc.token) && !Step(s, e).sealed
  {
    if !e.Restart? && !e.PowerLoss? {
      if s.pc.LoadCustody? {
        assert Step(s, e) == StepLoad(s, e);
      } else if s.pc.GetInit? {
        assert Step(s, e) == StepGetInit(s, e);
      } else if s.pc.PostInit? {
        assert Step(s, e) == StepPostInit(s, e);
      } else if s.pc.Saving? {
        assert Step(s, e) == StepSave(s, e);
      } else {
        assert Step(s, e) == StepRequest(s, e);
      }
    }
  }

  /** From every state, through anything: the token of a bootstrap that has succeeded is
      live in the Vault it ran against, and that Vault is unsealed. */
  lemma {:induction false} PublishedTokenAccepted(s: State, preferred: Token, reseal: bool, es: seq<Event>)
    ensures var t := Exec(Step(s, Restart(preferred, reseal)), es);
            t.pc.Done? ==> t.vault.Allows(t.pc.token) && !t.sealed
    decreases |es|
  {
    hide Step;
    if es == [] {
      BeginsLoading(s, preferred, reseal);
    } else {
      PublishedTokenAccepted(s, preferred, reseal, es[..|es| - 1]);
      AcceptedStep(Exec(Step(s, Restart(preferred, reseal)), es[..|es| - 1]), es[|es| - 1]);
    }
  }

  lemma BeginsLoading(s: State, preferred: Token, reseal: bool)
    ensures Step(s, Restart(preferred, reseal)).pc.LoadCustody?
    ensures SaveUnfinished(Step(s, Restart(preferred, reseal)).pc)
  {
  }
}
