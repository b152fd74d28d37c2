/** The two provisioners of this service, the local runtime (bootstrap, then Start) and
    the deployed script, leave the same Vault to its consumers. */
module Agreement {
  import opened Options
  import opened VaultModel
  import Transit
  import Provisioning
  import Safety
  import Convergence
  import Bootstrap
  import Starting

  // ------------------------------------------------------------ what consumers see

  /** Whether the token works, what is mounted at secret/ and transit/, and the type
      of the transit key. */
  datatype View = View(usable: bool, secret: Option<Mount>, transit: Option<Mount>, keyType: Option<string>)

  function Seen(v: Vault, token: Token, key: string): View {
    View(v.Allows(token),
         if "secret" in v.mounts then Some(v.mounts["secret"]) else None,
         if "transit" in v.mounts then Some(v.mounts["transit"]) else None,
         if key in v.keys then Some(v.keys[key].keyType) else None)
  }

  /** A working token, KV version 2, the transit engine and an aes256-gcm96 key. */
  const PROVISIONED_VIEW :=
    View(true, Some(Mount("kv", true)), Some(Mount("transit", false)), Some("aes256-gcm96"))

  /** Only what the script mounts and creates is there. */
  predicate ScriptMade(v: Vault) {
    && (SECRET in v.mounts ==> v.mounts[SECRET] == KV2)
    && (TRANSIT in v.mounts ==> v.mounts[TRANSIT] == TRANSIT_ENGINE)
    && (forall k | k in v.keys :: v.keys[k].keyType == KEY_TYPE)
  }

  lemma CommandStaysScriptMade(s: Provisioning.State, e: Provisioning.Event)
    requires ScriptMade(s.vault)
    ensures ScriptMade(Provisioning.Command(s, e).vault)
  {
    var v := Provisioning.Command(s, e).vault;
    if s.pc.InTransit? {
      assert Provisioning.Command(s, e) == Provisioning.StepTransit(s, e);
      assert v.mounts == s.vault.mounts || v.mounts == s.vault.mounts[TRANSIT := TRANSIT_ENGINE];
    } else if s.pc.Kv? {
      assert v.mounts == s.vault.mounts || v.mounts == s.vault.mounts[SECRET := KV2];
    } else {
      assert v.mounts == s.vault.mounts && v.keys == s.vault.keys;
    }
  }

  lemma {:induction false} CalmRunStaysScriptMade(s: Provisioning.State, es: seq<Provisioning.Event>)
    requires ScriptMade(s.vault) && Convergence.CalmRun(s, es)
    ensures ScriptMade(Provisioning.Exec(s, es).vault)
    decreases |es|
  {
    if es != [] {
      CalmRunStaysScriptMade(s, es[..|es| - 1]);
      CommandStaysScriptMade(Provisioning.Exec(s, es[..|es| - 1]), es[|es| - 1]);
    }
  }

  /** The deployed script on a fresh Vault and volume. */
  lemma {:induction false} ScriptReachesView(cfg: Provisioning.Config, es: seq<Provisioning.Event>)
    requires Provisioning.Usable(cfg) && cfg.mode == "durable"
    requires Convergence.CalmRun(Provisioning.Step(Provisioning.ORIGIN, Provisioning.Restart(cfg)), es)
    requires |es| >= Convergence.LongestRun(cfg)
    ensures var t := Provisioning.Exec(Provisioning.Step(Provisioning.ORIGIN, Provisioning.Restart(cfg)), es);
            t.pc.Done? && Seen(t.vault, cfg.token, cfg.key) == PROVISIONED_VIEW
  {
    var s := Provisioning.Step(Provisioning.ORIGIN, Provisioning.Restart(cfg));
    Provisioning.ExecStep(Provisioning.ORIGIN, [], Provisioning.Restart(cfg));
    Convergence.CalmIsAnswered(s, es);
    Convergence.ProvisionsExactlyWhen([], cfg, es);
    Convergence.ExecKeepsConfig(s, es);
    CalmRunStaysScriptMade(s, es);
  }

  /** What a Start finds: the Vault bootstrap left, and no signing key yet. */
  function Unseeded(v: Vault): Starting.State {
    Starting.State(v, "", "", None, 0, Starting.Idle)
  }

  /** The local runtime on a fresh Vault and directory: bootstrap, then Start. */
  lemma {:induction false} RuntimeReachesView(token: Token, key: string, es: seq<Bootstrap.Event>, fs: seq<Starting.Event>)
    requires token != "" && key != ""
    requires Bootstrap.CalmRun(Bootstrap.Step(Bootstrap.ORIGIN, Bootstrap.Restart(token, true)), es)
    requires Bootstrap.UpInTime(Bootstrap.Step(Bootstrap.ORIGIN, Bootstrap.Restart(token, true)), es)
    requires |es| >= Bootstrap.LONGEST_RUN
    requires Starting.AllAnswered(fs) && |fs| >= 4
    ensures var t := Bootstrap.Exec(Bootstrap.Step(Bootstrap.ORIGIN, Bootstrap.Restart(token, true)), es);
            var u := Starting.Exec(Starting.Step(Unseeded(t.vault), Starting.Start(token, key)), fs);
            && t.pc == Bootstrap.Done(token) && u.pc.Started? && u.signing.Some?
            && Seen(u.vault, token, key) == PROVISIONED_VIEW
  {
    Bootstrap.BootstrapSucceedsExactlyWhen([], token, es);
    var s := Bootstrap.Step(Bootstrap.ORIGIN, Bootstrap.Restart(token, true));
    BootstrapLeavesTransitAlone(s, es);
    StartReachesView(Bootstrap.Exec(s, es).vault, token, key, fs);
  }

  lemma {:induction false} StartReachesView(v: Vault, token: Token, key: string, fs: seq<Starting.Event>)
    requires key != "" && v.Allows(token) && SECRET in v.mounts && v.mounts[SECRET] == KV2 && ScriptMade(v)
    requires Starting.AllAnswered(fs) && |fs| >= 4
    ensures var u := Starting.Exec(Starting.Step(Unseeded(v), Starting.Start(token, key)), fs);
            u.pc.Started? && u.signing.Some? && Seen(u.vault, token, key) == PROVISIONED_VIEW
  {
    hide Starting.Exec;
    Starting.AnsweredStartSucceeds(Unseeded(v), token, key, fs);
    Starting.TransitServedExactlyWhen(Unseeded(v), token, key, fs);
    StartsStayScriptMade(Starting.Step(Unseeded(v), Starting.Start(token, key)), fs);
  }

  lemma {:induction false} StartsStayScriptMade(s: Starting.State, fs: seq<Starting.Event>)
    requires ScriptMade(s.vault)
    ensures ScriptMade(Starting.Exec(s, fs).vault)
    decreases |fs|
  {
    if fs != [] {
      StartsStayScriptMade(s, fs[..|fs| - 1]);
      RequestStaysScriptMade(Starting.Exec(s, fs[..|fs| - 1]), fs[|fs| - 1]);
    }
  }

  lemma RequestStaysScriptMade(s: Starting.State, e: Starting.Event)
    requires ScriptMade(s.vault)
    ensures ScriptMade(Starting.Step(s, e).vault)
  {
    var v := Starting.Step(s, e).vault;
    assert v.mounts == s.vault.mounts || v.mounts == s.vault.mounts[TRANSIT := TRANSIT_ENGINE];
  }

  lemma {:induction false} BootstrapLeavesTransitAlone(s: Bootstrap.State, es: seq<Bootstrap.Event>)
    requires TRANSIT !in s.vault.mounts && s.vault.keys == map[]
    ensures TRANSIT !in Bootstrap.Exec(s, es).vault.mounts && Bootstrap.Exec(s, es).vault.keys == map[]
    decreases |es|
  {
    if es != [] {
      BootstrapLeavesTransitAlone(s, es[..|es| - 1]);
      StepLeavesTransitAlone(Bootstrap.Exec(s, es[..|es| - 1]), es[|es| - 1]);
    }
  }

  lemma StepLeavesTransitAlone(s: Bootstrap.State, e: Bootstrap.Event)
    requires TRANSIT !in s.vault.mounts && s.vault.keys == map[]
    ensures TRANSIT !in Bootstrap.Step(s, e).vault.mounts && Bootstrap.Step(s, e).vault.keys == map[]
  {
  }

  /** From a fresh Vault, with the same access token and key name, both provisioners
      leave consumers the same: a working token, KV v2 at secret/, the transit engine
      and an aes256-gcm96 key. */
  lemma {:induction false} ProvisionersAgree(
    cfg: Provisioning.Config, es: seq<Provisioning.Event>, fs: seq<Bootstrap.Event>, gs: seq<Starting.Event>)
    requires Provisioning.Usable(cfg) && cfg.mode == "durable"
    requires Convergence.CalmRun(Provisioning.Step(Provisioning.ORIGIN, Provisioning.Restart(cfg)), es)
    requires |es| >= Convergence.LongestRun(cfg)
    requires Bootstrap.CalmRun(Bootstrap.Step(Bootstrap.ORIGIN, Bootstrap.Restart(cfg.token, true)), fs)
    requires Bootstrap.UpInTime(Bootstrap.Step(Bootstrap.ORIGIN, Bootstrap.Restart(cfg.token, true)), fs)
    requires |fs| >= Bootstrap.LONGEST_RUN
    requires Starting.AllAnswered(gs) && |gs| >= 4
    ensures var deployed := Provisioning.Exec(Provisioning.Step(Provisioning.ORIGIN, Provisioning.Restart(cfg)), es).vault;
            var custody := Bootstrap.Exec(Bootstrap.Step(Bootstrap.ORIGIN, Bootstrap.Restart(cfg.token, true)), fs).vault;
            var local := Starting.Exec(Starting.Step(Unseeded(custody), Starting.Start(cfg.token, cfg.key)), gs).vault;
            Seen(local, cfg.token, cfg.key) == Seen(deployed, cfg.token, cfg.key) == PROVISIONED_VIEW
  {
    ScriptReachesView(cfg, es);
    RuntimeReachesView(cfg.token, cfg.key, fs, gs);
  }
}
