/** Histories from the very beginning that reach what the exact conditions of the other
    modules set apart. */
module Histories {
  import opened Options
  import opened VaultModel
  import P = Provisioning
  import B = Bootstrap
  import R = Runtime
  import S = Starting
  import Safety
  import Convergence
  import RootAccess
  import Storage
  import Custody
  import Transit

  // ------------------------------------------------------------ the script

  const CONFIG := P.Config("durable", "key", "t", 1, false)
  const RESPONSE := P.Record("r", [])

  ghost predicate Leads(es: seq<P.Event>, t: P.State) {
    P.AdmissibleRun(P.ORIGIN, es) && P.Exec(P.ORIGIN, es) == t
  }

  lemma Then(es: seq<P.Event>, s: P.State, e: P.Event) returns (fs: seq<P.Event>)
    requires Leads(es, s) && P.Admissible(s, e)
    ensures fs == es + [e] && Leads(fs, P.Step(s, e))
  {
    fs := es + [e];
    P.ExecStep(P.ORIGIN, es, e);
  }

  lemma Answered(es: seq<P.Event>, s: P.State, t: P.State) returns (fs: seq<P.Event>)
    requires Leads(es, s) && P.Command(s, P.Ok) == t
    ensures Leads(fs, t)
  {
    fs := Then(es, s, P.Ok);
  }

  /** Initialized and published, and no further. */
  const PUBLISHED :=
    P.State(Vault(Some("r"), map["r" := {}], map[], map[], 0), P.Volume(Some(RESPONSE), None, None, false),
            CONFIG, P.RemovePgp, {})

  const OPENED :=
    P.ORIGIN.(cfg := CONFIG, pc := P.OperatorInit, volume := P.Volume(None, Some(P.EMPTY_RECORD), None, false))

  lemma Opens() returns (es: seq<P.Event>)
    ensures Leads(es, OPENED)
  {
    hide P.Exec, P.AdmissibleRun;
    es := Starts();
    var s := P.ORIGIN.(cfg := CONFIG, pc := P.ReadInit);
    es := Answered(es, s, s.(pc := P.StagePgp));
    es := Answered(es, s.(pc := P.StagePgp), s.(pc := P.OpenPartial));
    es := Answered(es, s.(pc := P.OpenPartial), OPENED);
  }

  /** The one state crash convergence excepts: the server initializes and its response
      is lost. */
  lemma ResponseLost() returns (es: seq<P.Event>)
    ensures P.AdmissibleRun(P.ORIGIN, es) && Convergence.NeverPublished(P.Exec(P.ORIGIN, es))
  {
    hide P.Exec, P.AdmissibleRun;
    es := Opens();
    es := Then(es, OPENED, P.InitLost("r", P.EMPTY_RECORD));
  }

  lemma Publishes() returns (es: seq<P.Event>)
    ensures Leads(es, PUBLISHED)
  {
    hide P.Exec, P.AdmissibleRun;
    es := Opens();
    es := Then(es, OPENED, P.InitDone("r", RESPONSE));
    var t := P.State(PUBLISHED.vault, P.Volume(None, Some(RESPONSE), None, false), CONFIG, P.Publish, {});
    assert P.Step(OPENED, P.InitDone("r", RESPONSE)) == t;
    es := Answered(es, t, PUBLISHED);
  }

  lemma Starts() returns (es: seq<P.Event>)
    ensures Leads(es, P.ORIGIN.(cfg := CONFIG, pc := P.ReadInit))
  {
    assert Leads([], P.ORIGIN);
    es := Then([], P.ORIGIN, P.Restart(CONFIG));
    var s := P.ORIGIN.(cfg := CONFIG, pc := P.WaitSealed(0));
    assert P.Step(P.ORIGIN, P.Restart(CONFIG)) == s;
    es := Answered(es, s, s.(pc := P.ReadInit));
  }

  /** A first run cut right after publishing, and a second one whose access token is the
      root token on record: it reports success, and no token is left alive. */
  lemma RootTokenLocksOut() returns (es: seq<P.Event>, cfg: P.Config)
    ensures P.AdmissibleRun(P.ORIGIN, es) && P.Usable(cfg) && cfg.mode == "durable"
    ensures var t := P.Exec(P.Step(P.Exec(P.ORIGIN, es), P.Restart(cfg)), RootAccess.Oks(27));
            t.pc.Done? && t.vault.live == map[]
  {
    hide P.Exec, P.AdmissibleRun;
    es := Publishes();
    cfg := CONFIG.(token := "r");
    var s := PUBLISHED.(cfg := cfg, pc := P.WaitSealed(0));
    assert P.Step(PUBLISHED, P.Restart(cfg)) == s;
    RootAccess.RootAsAccessTokenLocksOut(s, "r");
  }

  const INSTALLED :=
    PUBLISHED.(vault := PUBLISHED.vault.(live := map["r" := {}, "t" := {}]), pc := P.Kv(P.ReadKv), seen := {"t"})

  lemma Installs() returns (es: seq<P.Event>)
    ensures Leads(es, INSTALLED)
  {
    hide P.Exec, P.AdmissibleRun;
    es := Publishes();
    var s := PUBLISHED;
    es := Answered(es, s, s.(pc := P.WaitUnsealed(0)));
    es := Answered(es, s.(pc := P.WaitUnsealed(0)), s.(pc := P.LookupAccess));
    es := Answered(es, s.(pc := P.LookupAccess), s.(pc := P.ReadRoot));
    es := Answered(es, s.(pc := P.ReadRoot), s.(pc := P.Install("r")));
    var t := s.(vault := INSTALLED.vault, pc := P.LookupInstalled);
    es := Answered(es, s.(pc := P.Install("r")), t);
    es := Answered(es, t, INSTALLED);
  }

  const WITH_KV := INSTALLED.(vault := INSTALLED.vault.(mounts := map[SECRET := KV2]))

  lemma MountsKv() returns (es: seq<P.Event>)
    ensures Leads(es, WITH_KV.(pc := P.InTransit(Transit.ReadMount)))
  {
    hide P.Exec, P.AdmissibleRun;
    es := Installs();
    es := Answered(es, INSTALLED, INSTALLED.(pc := P.Kv(P.EnableKv)));
    es := Answered(es, INSTALLED.(pc := P.Kv(P.EnableKv)), WITH_KV.(pc := P.Kv(P.RereadKv)));
    es := Answered(es, WITH_KV.(pc := P.Kv(P.RereadKv)), WITH_KV.(pc := P.Kv(P.ReadOptions)));
    es := Answered(es, WITH_KV.(pc := P.Kv(P.ReadOptions)), WITH_KV.(pc := P.InTransit(Transit.ReadMount)));
  }

  const WITH_ENGINE :=
    WITH_KV.(vault := WITH_KV.vault.(mounts := map[SECRET := KV2, TRANSIT := TRANSIT_ENGINE]))

  const WITH_KEY :=
    WITH_ENGINE.(vault := WITH_ENGINE.vault.(keys := map["key" := TransitKey(KEY_TYPE, 0)], minted := 1))

  lemma EnablesEngine() returns (es: seq<P.Event>)
    ensures Leads(es, WITH_ENGINE.(pc := P.InTransit(Transit.ReadKey)))
  {
    hide P.Exec, P.AdmissibleRun;
    es := MountsKv();
    es := Answered(es, WITH_KV.(pc := P.InTransit(Transit.ReadMount)), WITH_KV.(pc := P.InTransit(Transit.EnableEngine)));
    es := Answered(es, WITH_KV.(pc := P.InTransit(Transit.EnableEngine)), WITH_ENGINE.(pc := P.InTransit(Transit.RereadMount)));
    es := Answered(es, WITH_ENGINE.(pc := P.InTransit(Transit.RereadMount)), WITH_ENGINE.(pc := P.InTransit(Transit.ReadKey)));
  }

  lemma CreatesKey() returns (es: seq<P.Event>)
    ensures Leads(es, WITH_KEY.(pc := P.ReadRootAgain))
  {
    hide P.Exec, P.AdmissibleRun;
    es := EnablesEngine();
    es := Answered(es, WITH_ENGINE.(pc := P.InTransit(Transit.ReadKey)), WITH_ENGINE.(pc := P.InTransit(Transit.CreateTheKey)));
    es := Answered(es, WITH_ENGINE.(pc := P.InTransit(Transit.CreateTheKey)), WITH_KEY.(pc := P.InTransit(Transit.RereadKey)));
    es := Answered(es, WITH_KEY.(pc := P.InTransit(Transit.RereadKey)), WITH_KEY.(pc := P.ReadRootAgain));
  }

  const SCRUBBED := WITH_KEY.(volume := P.Volume(Some(RESPONSE.(root := "")), None, None, false), pc := P.Done)

  lemma LooksUpInVain() returns (es: seq<P.Event>)
    ensures Leads(es, WITH_KEY.(pc := P.WriteScrubbed))
  {
    hide P.Exec, P.AdmissibleRun;
    es := CreatesKey();
    var s := WITH_KEY;
    es := Answered(es, s.(pc := P.ReadRootAgain), s.(pc := P.Revoke("r")));
    es := Then(es, s.(pc := P.Revoke("r")), P.Lost);
    assert P.StepRetire(s.(pc := P.Revoke("r")), P.Lost) == s.(pc := P.LookupRoot("r"));
    es := Then(es, s.(pc := P.LookupRoot("r")), P.Lost);
    assert P.StepRetire(s.(pc := P.LookupRoot("r")), P.Lost) == s.(pc := P.WriteScrubbed);
  }

  lemma Scrubs() returns (es: seq<P.Event>)
    ensures Leads(es, SCRUBBED)
  {
    hide P.Exec, P.AdmissibleRun;
    es := LooksUpInVain();
    var s := WITH_KEY.(pc := P.WriteScrubbed);
    var t := s.(pc := P.PublishScrubbed, volume := s.volume.(scrubbed := Some(RESPONSE.(root := ""))));
    assert P.StepRetire(s, P.Ok) == t;
    es := Answered(es, s, t);
    assert P.StepRetire(t, P.Ok) == SCRUBBED;
    es := Answered(es, t, SCRUBBED);
  }

  /** A first run that loses the answers to its revocation and to the lookup behind it:
      it reports success over a record scrubbed while the root token lives. */
  lemma ScrubsInVain() returns (es: seq<P.Event>)
    ensures P.AdmissibleRun(P.ORIGIN, es) && P.Exec(P.ORIGIN, es).pc.Done?
    ensures Safety.ScrubbedOverALiveRoot(P.Exec(P.ORIGIN, es)) && Safety.PublishedAVainScrub(P.ORIGIN, es)
  {
    hide P.Exec, P.AdmissibleRun, Safety.PublishedAVainScrub;
    es := Scrubs();
    Safety.ScrubsALiveRootExactlyWhen(es);
  }

  // ------------------------------------------------------------ the local bootstrap

  ghost predicate Comes(es: seq<B.Event>, t: B.State) {
    B.AdmissibleRun(es) && B.Exec(B.ORIGIN, es) == t
  }

  lemma Next(es: seq<B.Event>, s: B.State, e: B.Event, t: B.State) returns (fs: seq<B.Event>)
    requires Comes(es, s) && B.Admissible(e) && B.Step(s, e) == t
    ensures fs == es + [e] && Comes(fs, t)
  {
    fs := es + [e];
    assert fs[..|es|] == es;
  }

  /** The disk with the temporary file written and synced. */
  function Written(d: Storage.Disk, c: Storage.Credentials): Storage.Disk {
    Storage.SyncFile(Storage.Write(Storage.CreateTemp(d), d.next, Storage.Encoded(c)), d.next)
  }

  /** The disk when save stands before its directory sync. */
  function Renamed(d: Storage.Disk, c: Storage.Credentials): Storage.Disk {
    Storage.Rename(Written(d, c), d.next)
  }

  /** Everything about save works up to the directory sync. */
  lemma SavesUpToSync(es: seq<B.Event>, s: B.State) returns (fs: seq<B.Event>)
    requires Comes(es, s) && s.pc.Saving? && s.pc.save.CreateTemp?
    ensures Comes(fs, s.(disk := Renamed(s.disk, s.c), pc := s.pc.(save := Custody.SyncDir)))
  {
    hide B.Exec, B.AdmissibleRun;
    var ino, pc := s.disk.next, s.pc;
    fs := WritesTemp(es, s);
    var t := s.(disk := Written(s.disk, s.c), pc := pc.(save := Custody.CloseTemp(ino, false)));
    fs := Next(fs, t, B.Ok, t.(pc := pc.(save := Custody.RenameTemp(ino))));
    var u := t.(disk := Storage.Rename(t.disk, ino), pc := pc.(save := Custody.OpenDir));
    fs := Next(fs, t.(pc := pc.(save := Custody.RenameTemp(ino))), B.Ok, u);
    fs := Next(fs, u, B.Ok, u.(pc := pc.(save := Custody.SyncDir)));
  }

  lemma WritesTemp(es: seq<B.Event>, s: B.State) returns (fs: seq<B.Event>)
    requires Comes(es, s) && s.pc.Saving? && s.pc.save.CreateTemp?
    ensures Comes(fs, s.(disk := Written(s.disk, s.c), pc := s.pc.(save := Custody.CloseTemp(s.disk.next, false))))
  {
    hide B.Exec, B.AdmissibleRun;
    var ino, pc := s.disk.next, s.pc;
    var t := s.(disk := Storage.CreateTemp(s.disk), pc := pc.(save := Custody.WriteTemp(ino)));
    fs := Next(es, s, B.Ok, t);
    var u := s.(disk := Storage.Write(t.disk, ino, Storage.Encoded(s.c)), pc := pc.(save := Custody.SyncTemp(ino)));
    fs := Next(fs, t, B.Ok, u);
    fs := Next(fs, u, B.Ok, s.(disk := Written(s.disk, s.c), pc := pc.(save := Custody.CloseTemp(ino, false))));
  }

  const FIRST := Storage.Credentials("r", "k", "r")
  const SECOND := Storage.Credentials("r", "k", "t")

  const CREATED :=
    B.ORIGIN.(vault := Vault(Some("r"), map["r" := {}], map[], map[], 0), barrier := "k", c := FIRST)

  lemma Initializes() returns (es: seq<B.Event>)
    ensures Comes(es, CREATED.(pc := B.Saving(true, Custody.CreateTemp)))
  {
    assert Comes([], B.ORIGIN);
    hide B.Exec, B.AdmissibleRun;
    var s := B.ORIGIN;
    es := Next([], s, B.Restart("", true), s.(pc := B.LoadCustody));
    es := Next(es, s.(pc := B.LoadCustody), B.Ok, s.(pc := B.GetInit(0, None)));
    es := Next(es, s.(pc := B.GetInit(0, None)), B.Ok, s.(pc := B.PostInit));
    es := Next(es, s.(pc := B.PostInit), B.InitDone("r", "k"), CREATED.(pc := B.Saving(true, Custody.CreateTemp)));
  }

  /** What the first bootstrap leaves, its custody saved. */
  predicate Saved(s: B.State) {
    && s == CREATED.(disk := s.disk, pc := B.Unseal)
    && s.disk.pending == [] && Storage.Load(s.disk) == Storage.Valid(FIRST)
  }

  lemma FirstSave() returns (es: seq<B.Event>, s: B.State)
    ensures Comes(es, s) && Saved(s)
  {
    hide B.Exec, B.AdmissibleRun, B.Inv;
    es := Initializes();
    var s0 := CREATED.(pc := B.Saving(true, Custody.CreateTemp));
    es := SavesUpToSync(es, s0);
    var s1 := s0.(disk := Renamed(s0.disk, FIRST), pc := B.Saving(true, Custody.SyncDir));
    s := s1.(disk := Storage.SyncDirectory(s1.disk), pc := B.Unseal);
    es := Next(es, s1, B.Ok, s);
    B.Reachable(es);
    InvLoads(s);
  }

  lemma InvLoads(s: B.State)
    requires B.Inv(s)
    ensures Storage.Safe(s.disk)
    ensures s.pc.Unseal? ==> Storage.Load(s.disk) == Storage.Valid(s.c)
    ensures s.pc.Saving? && s.pc.save.SyncDir? ==> Storage.Load(s.disk) == Storage.Valid(s.c)
  {
  }

  const MOUNTED := CREATED.(vault := CREATED.vault.(mounts := map[SECRET := KV2]), sealed := false)

  lemma FirstBootstrap() returns (es: seq<B.Event>, d: Storage.Disk)
    ensures Comes(es, MOUNTED.(disk := d, pc := B.Done("r")))
    ensures d.pending == [] && Storage.Load(d) == Storage.Valid(FIRST)
  {
    hide B.Exec, B.AdmissibleRun, Storage.Load;
    var s;
    es, s := FirstSave();
    d := s.disk;
    es := Next(es, s, B.Ok, s.(pc := B.GetMounts, sealed := false));
    es := Next(es, s.(pc := B.GetMounts, sealed := false), B.Ok, s.(pc := B.PostMount, sealed := false));
    es := Next(es, s.(pc := B.PostMount, sealed := false), B.Ok, MOUNTED.(disk := d, pc := B.LookupSelf));
    es := Next(es, MOUNTED.(disk := d, pc := B.LookupSelf), B.Ok, MOUNTED.(disk := d, pc := B.Done("r")));
  }

  const CLAIMED :=
    MOUNTED.(vault := MOUNTED.vault.(live := map["r" := {}, "t" := {}]), preferred := "t", c := SECOND)

  /** A second bootstrap, with a token configured, up to its own save. */
  lemma CreatesOrphan() returns (es: seq<B.Event>, d: Storage.Disk)
    ensures Comes(es, CLAIMED.(disk := d, pc := B.Saving(false, Custody.CreateTemp)))
    ensures d.pending == [] && Storage.Load(d) == Storage.Valid(FIRST)
  {
    hide B.Exec, B.AdmissibleRun;
    es, d := FirstBootstrap();
    var s := MOUNTED.(disk := d, preferred := "t", sealed := true);
    es := Next(es, MOUNTED.(disk := d, pc := B.Done("r")), B.Restart("t", true), s.(pc := B.LoadCustody));
    es := Next(es, s.(pc := B.LoadCustody), B.Ok, s.(pc := B.GetInit(0, Some(FIRST))));
    es := Next(es, s.(pc := B.GetInit(0, Some(FIRST))), B.Ok, s.(pc := B.Unseal));
    es := UnsealsAndCreates(es, s);
  }

  lemma UnsealsAndCreates(es: seq<B.Event>, s: B.State) returns (fs: seq<B.Event>)
    requires s == MOUNTED.(disk := s.disk, preferred := "t", sealed := true, pc := s.pc) && Comes(es, s.(pc := B.Unseal))
    ensures Comes(fs, CLAIMED.(disk := s.disk, pc := B.Saving(false, Custody.CreateTemp)))
  {
    hide B.Exec, B.AdmissibleRun;
    var t := s.(sealed := false);
    fs := Next(es, s.(pc := B.Unseal), B.Ok, t.(pc := B.GetMounts));
    fs := Next(fs, t.(pc := B.GetMounts), B.Ok, t.(pc := B.PostOrphan));
    fs := Next(fs, t.(pc := B.PostOrphan), B.Ok, CLAIMED.(disk := s.disk, pc := B.Saving(false, Custody.CreateTemp)));
  }

  /** Its save fails at the very last operation, and an unconfigured bootstrap publishes
      the token whose rename is not yet on the platter: a power failure may bring the
      other one back. */
  lemma TokensDisagree() returns (es: seq<B.Event>, token: Token, fs: seq<B.Event>)
    ensures B.AdmissibleRun(es) && B.Exec(B.ORIGIN, es).pc == B.Done(token)
    ensures !B.OneToken(B.Exec(B.ORIGIN, es).disk, token)
    ensures B.UnconfiguredRestarts(fs) && B.SettlesUnconfigured(fs)
    ensures var t := B.Exec(B.Exec(B.ORIGIN, es), fs); t.pc.Done? && t.pc.token != token
  {
    hide B.Exec, B.AdmissibleRun, B.Inv;
    var d;
    es, d := CreatesOrphan();
    var s := CLAIMED.(disk := d, pc := B.Saving(false, Custody.CreateTemp));
    B.Reachable(es);
    InvLoads(s);
    es := SavesUpToSync(es, s);
    var renamed := s.(disk := Renamed(d, SECOND), pc := B.Saving(false, Custody.SyncDir));
    B.Reachable(es);
    InvLoads(renamed);
    es := Next(es, renamed, B.Fails, renamed.(pc := B.Failed));
    var again := renamed.(pc := B.LoadCustody, preferred := "", sealed := true);
    es := Next(es, renamed.(pc := B.Failed), B.Restart("", true), again);
    es := Answers(es, again);
    token := "t";
    B.Reachable(es);
    var t := B.Exec(B.ORIGIN, es);
    OldStillDurable(d);
    fs := B.Disagrees(t, token);
  }

  /** Five answers of an unconfigured bootstrap. */
  lemma Answers(es: seq<B.Event>, s: B.State) returns (fs: seq<B.Event>)
    requires Comes(es, s)
    requires s == CLAIMED.(disk := s.disk, pc := B.LoadCustody, preferred := "", sealed := true)
    requires Storage.Load(s.disk) == Storage.Valid(SECOND)
    ensures Comes(fs, s.(pc := B.Done("t"), sealed := false))
  {
    hide B.Exec, B.AdmissibleRun;
    fs := Next(es, s, B.Ok, s.(pc := B.GetInit(0, Some(SECOND))));
    fs := Next(fs, s.(pc := B.GetInit(0, Some(SECOND))), B.Ok, s.(pc := B.Unseal));
    var t := s.(sealed := false);
    fs := Next(fs, s.(pc := B.Unseal), B.Ok, t.(pc := B.GetMounts));
    fs := Next(fs, t.(pc := B.GetMounts), B.Ok, t.(pc := B.LookupSelf));
    fs := Next(fs, t.(pc := B.LookupSelf), B.Ok, t.(pc := B.Done("t")));
  }

  lemma OldStillDurable(d: Storage.Disk)
    requires d.pending == [] && Storage.Load(d) == Storage.Valid(FIRST) && Storage.Safe(d)
    ensures !B.OneToken(Renamed(d, SECOND), "t")
  {
    assert Storage.View(d) == d.durable;
    var ino := d.durable[Storage.CredentialsFile];
    assert Storage.Candidate(d, ino);
    assert Storage.Candidate(Renamed(d, SECOND), ino);
  }

  /** The same second bootstrap cut before its save: the token is in Vault and not in
      custody. The next one, answered throughout but for a refusal to create the token
      again, fails. */
  lemma TokenCreatedTwice() returns (es: seq<B.Event>, fs: seq<B.Event>)
    ensures B.AdmissibleRun(es)
    ensures var s := B.Exec(B.ORIGIN, es);
            var s' := B.Step(s, B.Restart("t", true));
            && Storage.Load(s.disk).Valid? && B.UpInTime(s', fs) && B.CalmRun(s', fs) && |fs| >= B.LONGEST_RUN
            && !B.Accepted(s', fs) && B.Exec(s', fs).pc.Failed?
  {
    hide B.Exec, B.AdmissibleRun, B.CalmRun, B.UpInTime, B.Accepted;
    var d;
    es, d := CreatesOrphan();
    var s := CLAIMED.(disk := d, pc := B.LoadCustody, sealed := true);
    assert B.Step(CLAIMED.(disk := d, pc := B.Saving(false, Custody.CreateTemp)), B.Restart("t", true)) == s;
    fs := Refused(s);
    fs := Pad(s, fs, B.LONGEST_RUN);
  }

  ghost predicate Calmly(s: B.State, fs: seq<B.Event>, t: B.State) {
    B.CalmRun(s, fs) && B.UpInTime(s, fs) && B.Exec(s, fs) == t
  }

  lemma CalmNext(s: B.State, fs: seq<B.Event>, t: B.State, e: B.Event) returns (gs: seq<B.Event>)
    requires Calmly(s, fs, t) && B.Calm(t, e) && (t.pc.GetInit? ==> e.Ok?)
    ensures gs == fs + [e] && Calmly(s, gs, B.Step(t, e))
    ensures B.Accepted(s, gs) <==> B.Accepted(s, fs) && (t.pc.PostOrphan? ==> e.Ok?)
  {
    gs := fs + [e];
    assert gs[..|fs|] == fs;
  }

  lemma Unsealed(s: B.State) returns (fs: seq<B.Event>)
    requires s == CLAIMED.(disk := s.disk, pc := B.LoadCustody, sealed := true)
    requires Storage.Load(s.disk) == Storage.Valid(FIRST)
    ensures Calmly(s, fs, s.(pc := B.GetMounts, c := FIRST, sealed := false))
  {
    assert Calmly(s, [], s);
    hide B.Exec, B.CalmRun, B.UpInTime, B.Accepted;
    fs := CalmNext(s, [], s, B.Ok);
    var t := s.(pc := B.GetInit(0, Some(FIRST)));
    assert B.StepLoad(s, B.Ok) == t;
    fs := CalmNext(s, fs, t, B.Ok);
    var u := s.(pc := B.Unseal, c := FIRST);
    assert B.StepGetInit(t, B.Ok) == u;
    fs := CalmNext(s, fs, u, B.Ok);
    assert B.StepRequest(u, B.Ok) == u.(pc := B.GetMounts, sealed := false);
  }

  lemma Refused(s: B.State) returns (fs: seq<B.Event>)
    requires s == CLAIMED.(disk := s.disk, pc := B.LoadCustody, sealed := true)
    requires Storage.Load(s.disk) == Storage.Valid(FIRST)
    ensures B.CalmRun(s, fs) && B.UpInTime(s, fs) && !B.Accepted(s, fs) && B.Exec(s, fs).pc.Failed?
  {
    hide B.Exec, B.CalmRun, B.UpInTime, B.Accepted;
    fs := Unsealed(s);
    var v := s.(pc := B.GetMounts, c := FIRST, sealed := false);
    fs := CalmNext(s, fs, v, B.Ok);
    assert B.StepRequest(v, B.Ok) == v.(pc := B.PostOrphan);
    fs := CalmNext(s, fs, v.(pc := B.PostOrphan), B.Fails);
    assert B.StepRequest(v.(pc := B.PostOrphan), B.Fails).pc == B.Failed;
  }

  /** A failed call stays failed, however long one waits. */
  lemma {:induction false} Pad(s: B.State, fs: seq<B.Event>, n: nat) returns (gs: seq<B.Event>)
    requires B.CalmRun(s, fs) && B.UpInTime(s, fs) && !B.Accepted(s, fs) && B.Exec(s, fs).pc.Failed?
    ensures B.CalmRun(s, gs) && B.UpInTime(s, gs) && !B.Accepted(s, gs) && B.Exec(s, gs).pc.Failed? && |gs| >= n
    decreases n - |fs|
  {
    hide B.Exec, B.CalmRun, B.UpInTime, B.Accepted;
    if |fs| >= n {
      gs := fs;
    } else {
      gs := CalmNext(s, fs, B.Exec(s, fs), B.Ok);
      gs := Pad(s, gs, n);
    }
  }

  // ------------------------------------------------------------ the lock

  ghost predicate Reaches(es: seq<(nat, R.Event)>, w: R.World) {
    R.Exec(R.Fresh(1), es) == w
  }

  lemma Moves(es: seq<(nat, R.Event)>, w: R.World, e: R.Event) returns (fs: seq<(nat, R.Event)>)
    requires Reaches(es, w)
    ensures fs == es + [(0, e)] && Reaches(fs, R.Step(w, 0, e))
  {
    fs := es + [(0, e)];
    assert fs[..|es|] == es;
  }

  /** One agent, killed while its server runs. */
  lemma ServerLeftBehind() returns (es: seq<(nat, R.Event)>)
    ensures R.LeftBehind(1, es) && !R.LockCoversServer(R.Exec(R.Fresh(1), es))
  {
    assert Reaches([], R.Fresh(1));
    hide R.Exec;
    es := Moves([], R.Fresh(1), R.CallInit(true));
    var w := R.World([R.Agent(R.Prepare, Some(R.Handle(0, true)), false)], Some((0, 0)), None, 1);
    assert R.Step(R.Fresh(1), 0, R.CallInit(true)) == w;
    es := Moves(es, w, R.Prepared(true));
    var v := w.(agents := [R.Agent(R.StartContainer, Some(R.Handle(0, true)), true)]);
    assert R.Step(w, 0, R.Prepared(true)) == v;
    es := Moves(es, v, R.Started(true, true));
    var u := w.(agents := [R.Agent(R.Bootstrap, Some(R.Handle(0, true)), true)], container := Some((0, 0)));
    assert R.Step(v, 0, R.Started(true, true)) == u;
    es := Moves(es, u, R.Killed);
    assert R.Step(u, 0, R.Killed) == R.World([R.Agent(R.Idle, None, false)], None, Some((0, 0)), 1);
    R.CoveredExactlyWhen(1, es);
  }

  // ------------------------------------------------------------ the signing key

  ghost predicate Requests(s: S.State, es: seq<S.Event>, t: S.State) {
    S.Exec(s, es) == t
  }

  lemma Request(s: S.State, es: seq<S.Event>, t: S.State, e: S.Event) returns (fs: seq<S.Event>)
    requires Requests(s, es, t)
    ensures fs == es + [e] && Requests(s, fs, S.Step(t, e))
  {
    fs := es + [e];
    assert fs[..|es|] == es;
  }

  lemma TransitAnswered(s: S.State) returns (es: seq<S.Event>, t: S.State)
    requires S.KvUsable(s)
    ensures Requests(s, es, t) && t.pc.ReadSigning? && t.drawn == s.drawn && S.KvUsable(t)
  {
    assert Requests(s, [], s);
    hide S.Exec;
    es := Request(s, [], s, S.Start(s.token, s.key));
    t := s.(key := S.KeyName(s.key), pc := S.PostMount);
    assert S.Step(s, S.Start(s.token, s.key)) == t;
    es := Request(s, es, t, S.Ok);
    t := S.StepMount(t, S.Ok);
    es := Request(s, es, t, S.Ok);
    t := S.StepKey(t, S.Ok);
  }

  /** From any state with a signing key: a Start whose read of it gets no answer succeeds
      with another key in its place. */
  lemma SigningKeyReplaced(s: S.State) returns (es: seq<S.Event>)
    requires s.pc.Idle? && S.KvUsable(s) && s.signing.Some? && s.signing.value < s.drawn
    ensures S.Exec(s, es).pc.Started? && S.Exec(s, es).signing == Some(s.drawn) && S.Overwritten(s, es)
  {
    hide S.Exec, S.Overwritten, S.StepMount, S.StepKey;
    var t;
    es, t := TransitAnswered(s);
    es := Request(s, es, t, S.Lost);
    var u := t.(pc := S.PostSigning(s.drawn), drawn := s.drawn + 1);
    assert S.StepRead(t, S.Lost) == u;
    es := Request(s, es, u, S.Ok);
    assert S.StepWrite(u, S.Ok) == u.(signing := Some(s.drawn), pc := S.Started);
    S.SigningKeySurvivesExactlyWhen(s, es);
  }
}
