/** Runtime.Start behind the readiness poll: enableTransit and seedJWTSigningKey
    (runtime.go), request by request, over any sequence of Starts. */
module Starting {
  import opened Options
  import opened VaultModel

  /** PostSigning holds the key pair just generated, by identity. */
  datatype Pc =
    | Idle | PostMount | PostKey | ReadSigning | PostSigning(generated: nat)
    | Started | Failed

  /** `signing` is the key pair stored at secret/data/jwt-signing-key; the pairs
      generated so far are numbered below `drawn`. */
  datatype State = State(vault: Vault, token: Token, key: string, signing: Option<nat>, drawn: nat, pc: Pc)

  /** Ok: done, as far as the server does it, and answered. Lost: done, but the answer is
      an error. Fails: not done. Start: the call begins, whatever became of the one
      before. */
  datatype Event = Ok | Lost | Fails | Start(token: Token, key: string)

  const DEFAULT_KEY := "api-keys"

  function KeyName(key: string): string {
    if key == "" then DEFAULT_KEY else key
  }

  /** An engine that is not transit is mounted at transit/. */
  predicate Conflict(v: Vault) {
    TRANSIT in v.mounts && v.mounts[TRANSIT].kind != "transit"
  }

  predicate KvUsable(s: State) {
    s.vault.Allows(s.token) && SECRET in s.vault.mounts && s.vault.mounts[SECRET] == KV2
  }

  // ------------------------------------------------------------ the steps

  /** "Already in use" is an answer, not an error. */
  function StepMount(s: State, e: Event): State {
    s.(vault := if e.Ok? || e.Lost? then EnableMount(s.vault, s.token, TRANSIT, TRANSIT_ENGINE) else s.vault,
       pc := if e.Ok? && s.vault.Allows(s.token) then PostKey else Failed)
  }

  /** Another engine may take the request for a write of its own, or refuse it. */
  function StepKey(s: State, e: Event): State {
    s.(vault := if e.Ok? || e.Lost? then CreateKey(s.vault, s.token, s.key, KEY_TYPE) else s.vault,
       pc := if e.Ok? && s.vault.Allows(s.token) && TRANSIT in s.vault.mounts then ReadSigning else Failed)
  }

  /** Any error counts as absence. */
  function StepRead(s: State, e: Event): State {
    if e.Ok? && KvUsable(s) && s.signing.Some? then s.(pc := Started)
    else s.(pc := PostSigning(s.drawn), drawn := s.drawn + 1)
  }

  predicate Applied(s: State, e: Event) {
    s.pc.PostSigning? && (e.Ok? || e.Lost?) && KvUsable(s)
  }

  function StepWrite(s: State, e: Event): State
    requires s.pc.PostSigning?
  {
    s.(signing := if Applied(s, e) then Some(s.pc.generated) else s.signing,
       pc := if Applied(s, e) && e.Ok? then Started else Failed)
  }

  function Answered(s: State, e: Event): State {
    match s.pc
    case PostMount => StepMount(s, e)
    case PostKey => StepKey(s, e)
    case ReadSigning => StepRead(s, e)
    case PostSigning(_) => StepWrite(s, e)
    case _ => s
  }

  function Step(s: State, e: Event): State {
    if e.Start? then s.(token := e.token, key := KeyName(e.key), pc := PostMount) else Answered(s, e)
  }

  function Exec(s: State, es: seq<Event>): State
    decreases |es|
  {
    if es == [] then s else Step(Exec(s, es[..|es| - 1]), es[|es| - 1])
  }

  /** The answers of one call. */
  predicate OneStart(es: seq<Event>) {
    forall i | 0 <= i < |es| :: !es[i].Start?
  }

  // ------------------------------------------------------------ what Starts keep

  lemma StepKeeps(s: State, e: Event)
    ensures KeysKept(s.vault, Step(s, e).vault) && MountsKept(s.vault, Step(s, e).vault)
    ensures Step(s, e).vault.live == s.vault.live
    ensures s.drawn <= Step(s, e).drawn && (s.signing.Some? ==> Step(s, e).signing.Some?)
  {
    WritesKeep(s.vault, s.token, TRANSIT, TRANSIT_ENGINE, s.key, KEY_TYPE, s.token);
  }

  /** Over any Starts, failing anywhere: no key, mount or token is changed or taken, and
      a signing key, once there, is never missing again. */
  lemma {:induction false} StartsKeep(s: State, es: seq<Event>)
    ensures var t := Exec(s, es);
            && KeysKept(s.vault, t.vault) && MountsKept(s.vault, t.vault) && t.vault.live == s.vault.live
            && s.drawn <= t.drawn && (s.signing.Some? ==> t.signing.Some?)
    decreases |es|
  {
    hide Step;
    if es != [] {
      StartsKeep(s, es[..|es| - 1]);
      StepKeeps(Exec(s, es[..|es| - 1]), es[|es| - 1]);
    }
  }

  // ------------------------------------------------------------ the signing key

  predicate ReadInVain(s: State, e: Event) {
    s.pc.ReadSigning? && (e.Lost? || e.Fails?)
  }

  /** A read of the signing key went unanswered, and the write behind it applied. */
  ghost predicate Overwritten(s: State, es: seq<Event>)
    decreases |es|
  {
    var n := |es|;
    n >= 2 &&
    (Overwritten(s, es[..n - 1]) || (ReadInVain(Exec(s, es[..n - 2]), es[n - 2]) && Applied(Exec(s, es[..n - 1]), es[n - 1])))
  }

  /** About to write, a run has just read, and was not told of a key. */
  lemma WritesAfterReading(s: State, es: seq<Event>)
    requires s.pc.Idle? && s.signing.Some? && Exec(s, es).pc.PostSigning?
    ensures |es| >= 1
    ensures var before, e, t := Exec(s, es[..|es| - 1]), es[|es| - 1], Exec(s, es);
            && t.vault == before.vault && t.token == before.token
            && t.pc.generated == before.drawn && before.pc.ReadSigning?
            && (KvUsable(t) ==> ReadInVain(before, e))
  {
    var before := es[..|es| - 1];
    StartsKeep(s, before);
  }

  lemma StepSigning(s: State, e: Event)
    ensures Step(s, e).signing == if Applied(s, e) then Some(s.pc.generated) else s.signing
  {
  }

  /** For every sequence of Starts, cut and failing anywhere: the signing key stored at
      the beginning is the one stored at the end if and only if no read of it went
      unanswered with the write behind it applied. */
  lemma {:induction false} SigningKeySurvivesExactlyWhen(s: State, es: seq<Event>)
    requires s.pc.Idle? && s.signing.Some? && s.signing.value < s.drawn
    ensures Exec(s, es).signing == s.signing <==> !Overwritten(s, es)
    decreases |es|
  {
    hide Step, KvUsable;
    if es != [] {
      var n := |es|;
      var before, e := es[..n - 1], es[n - 1];
      var t := Exec(s, before);
      SigningKeySurvivesExactlyWhen(s, before);
      StartsKeep(s, before);
      StepSigning(t, e);
      if Applied(t, e) {
        WritesAfterReading(s, before);
        StartsKeep(s, before[..n - 2]);
        assert before[..n - 2] == es[..n - 2];
        AppliedIsUsable(t, e);
      }
    }
  }

  lemma AppliedIsUsable(s: State, e: Event)
    requires Applied(s, e)
    ensures KvUsable(s)
  {
  }

  // ------------------------------------------------------------ success, and what it means

  predicate PastTransit(pc: Pc) {
    pc.ReadSigning? || pc.PostSigning? || pc.Started?
  }

  /** Where one call stands, from the Vault it began with. */
  predicate Underway(s: State, v: Vault, key: string) {
    && s.key == key && (Conflict(s.vault) <==> Conflict(v))
    && (s.pc.PostKey? ==> TRANSIT in s.vault.mounts)
    && (PastTransit(s.pc) ==> TRANSIT in s.vault.mounts && (!Conflict(v) ==> key in s.vault.keys))
    && (s.pc.Started? ==> s.signing.Some?)
    && !s.pc.Idle?
  }

  lemma UnderwayStep(s: State, e: Event, v: Vault, key: string)
    requires Underway(s, v, key) && !e.Start?
    ensures Underway(Step(s, e), v, key)
  {
  }

  /** A Start that gets past enableTransit has a transit engine and the key if and only
      if no other engine was mounted at transit/; one that succeeds has a signing key
      stored. */
  lemma {:induction false} TransitServedExactlyWhen(s: State, token: Token, key: string, es: seq<Event>)
    requires OneStart(es)
    ensures var t := Exec(Step(s, Start(token, key)), es);
            && Underway(t, s.vault, KeyName(key))
            && (PastTransit(t.pc) ==>
                  (&& "transit" in t.vault.mounts && t.vault.mounts["transit"].kind == "transit"
                   && (if key == "" then "api-keys" else key) in t.vault.keys
                   <==> !("transit" in s.vault.mounts && s.vault.mounts["transit"].kind != "transit")))
            && (t.pc.Started? ==> t.signing.Some?)
    decreases |es|
  {
    if es != [] {
      assert OneStart(es[..|es| - 1]);
      TransitServedExactlyWhen(s, token, key, es[..|es| - 1]);
      UnderwayStep(Exec(Step(s, Start(token, key)), es[..|es| - 1]), es[|es| - 1], s.vault, KeyName(key));
    }
  }

  /** Every request is answered with success. */
  predicate AllAnswered(es: seq<Event>) {
    forall i | 0 <= i < |es| :: es[i].Ok?
  }

  function Rank(pc: Pc): nat {
    match pc
    case PostMount => 4
    case PostKey => 3
    case ReadSigning => 2
    case PostSigning(_) => 1
    case _ => 0
  }

  predicate Unhindered(s: State) {
    KvUsable(s) && !s.pc.Idle? && !s.pc.Failed? && (s.pc.PostKey? ==> TRANSIT in s.vault.mounts)
  }

  lemma StaysUnhindered(s: State)
    requires Unhindered(s)
    ensures Unhindered(Step(s, Ok))
    ensures Rank(Step(s, Ok).pc) <= if s.pc.Started? then 0 else Rank(s.pc) - 1
    ensures s.vault.Mounted(TRANSIT, "transit") && s.key in s.vault.keys && s.signing.Some? ==>
              Step(s, Ok).vault == s.vault && (s.pc.PostSigning? || Step(s, Ok).signing == s.signing)
  {
  }

  /** An answered Start over a usable KV mount succeeds, conflict or not, in at most four
      requests, and one over what an earlier Start left changes nothing at all. */
  lemma {:induction false} AnsweredStartSucceeds(s: State, token: Token, key: string, es: seq<Event>)
    requires KvUsable(s.(token := token)) && AllAnswered(es)
    ensures var t := Exec(Step(s, Start(token, key)), es);
            && Unhindered(t) && t.token == token && t.key == KeyName(key)
            && (Rank(t.pc) + |es| <= 4 || t.pc.Started?)
            && (s.vault.Mounted(TRANSIT, "transit") && KeyName(key) in s.vault.keys && s.signing.Some? ==>
                  t.vault == s.vault && t.signing == s.signing && !t.pc.PostSigning?)
    decreases |es|
  {
    if es != [] {
      var before := es[..|es| - 1];
      assert AllAnswered(before);
      AnsweredStartSucceeds(s, token, key, before);
      StaysUnhindered(Exec(Step(s, Start(token, key)), before));
      assert es[|es| - 1] == Ok;
    }
  }

  lemma FourRequests(s: State, token: Token, key: string, es: seq<Event>)
    requires |es| == 4 && OneStart(es)
    ensures Exec(Step(s, Start(token, key)), es) ==
            Step(Step(Step(Step(Step(s, Start(token, key)), es[0]), es[1]), es[2]), es[3])
  {
    hide Step;
    var s' := Step(s, Start(token, key));
    assert es[..3][..2] == es[..2] && es[..3][..2][..1] == es[..1] && es[..1][..0] == [];
    assert Exec(s', es) == Step(Exec(s', es[..3]), es[3]);
    assert Exec(s', es[..3]) == Step(Exec(s', es[..2]), es[2]);
    assert es[..2][..1] == es[..1];
    assert Exec(s', es[..2]) == Step(Exec(s', es[..1]), es[1]);
    assert Exec(s', es[..1]) == Step(s', es[0]);
  }

  lemma BothTransitRequests(s: State, token: Token, key: string, a: Event, b: Event)
    requires !a.Start? && !b.Start?
    ensures var t := Step(Step(Step(s, Start(token, key)), a), b);
            && (if s.vault.Allows(token) && a.Ok? && b.Ok? then t.pc.ReadSigning? else t.pc.Failed?)
            && t.signing == s.signing && t.token == token
            && (KvUsable(t) <==> KvUsable(s.(token := token)))
  {
  }

  lemma BothSigningRequests(s: State, c: Event, d: Event)
    requires !c.Start? && !d.Start? && s.pc.ReadSigning?
    ensures Step(Step(s, c), d).pc.Started? <==> KvUsable(s) && ((c.Ok? && s.signing.Some?) || d.Ok?)
  {
  }

  /** From every state: a Start succeeds if and only if its token works, both transit
      requests are answered with success, secret/ is a KV v2 mount, and the signing key
      is read, or else the new one's write is answered. */
  lemma {:induction false} StartSucceedsExactlyWhen(s: State, token: Token, key: string, es: seq<Event>)
    requires |es| == 4 && OneStart(es)
    ensures Exec(Step(s, Start(token, key)), es).pc.Started? <==>
            && token in s.vault.live && es[0].Ok? && es[1].Ok?
            && "secret" in s.vault.mounts && s.vault.mounts["secret"] == Mount("kv", true)
            && ((es[2].Ok? && s.signing.Some?) || es[3].Ok?)
  {
    hide Step, Exec;
    FourRequests(s, token, key, es);
    BothTransitRequests(s, token, key, es[0], es[1]);
    var t := Step(Step(Step(s, Start(token, key)), es[0]), es[1]);
    if t.pc.ReadSigning? {
      BothSigningRequests(t, es[2], es[3]);
    } else {
      FailedStays(t, es[2]);
      FailedStays(t, es[3]);
    }
  }

  lemma FailedStays(s: State, e: Event)
    requires s.pc.Failed? && !e.Start?
    ensures Step(s, e) == s
  {
  }

  // ------------------------------------------------------------ one Start, in place

  function AsAnswer(e: Event): (a: Event)
    ensures !a.Start?
  {
    if e.Start? then Fails else e
  }

  function Driven(m: State, world: nat -> Event, first: nat, next: nat): State
    requires first <= next
    decreases next
  {
    if first == next then m else Step(Driven(m, world, first, next - 1), AsAnswer(world(next - 1)))
  }

  lemma {:induction false} DrivenIsExec(m: State, world: nat -> Event, first: nat, next: nat) returns (es: seq<Event>)
    requires first <= next
    ensures Driven(m, world, first, next) == Exec(m, es) && OneStart(es) && |es| == next - first
    decreases next
  {
    hide Step;
    if first == next {
      es := [];
    } else {
      var before := DrivenIsExec(m, world, first, next - 1);
      es := before + [AsAnswer(world(next - 1))];
      assert es[..|before|] == before;
    }
  }

  /** Runtime, as far as Start goes. */
  class Starter {
    const world: nat -> Event
    const vaultToken: Token
    const transitKey: string
    var asked: nat
    var vault: Vault
    var signing: Option<nat>
    var drawn: nat

    ghost var m: State
    ghost const start: State
    ghost const first: nat

    ghost predicate OnPath()
      reads this
    {
      first <= asked && m == Driven(start, world, first, asked)
    }

    ghost predicate Agrees()
      reads this
    {
      && m.vault == vault && m.signing == signing && m.drawn == drawn
      && m.token == vaultToken && m.key == KeyName(transitKey)
    }

    constructor (world: nat -> Event, asked: nat, token: Token, key: string, before: State)
      ensures OnPath() && Agrees()
      ensures this.world == world && first == this.asked == asked && vaultToken == token && transitKey == key
      ensures start == m == Step(before, Event.Start(token, key))
    {
      this.world, this.asked, vaultToken, transitKey := world, asked, token, key;
      first := asked;
      vault, signing, drawn := before.vault, before.signing, before.drawn;
      start := Step(before, Event.Start(token, key));
      m := Step(before, Event.Start(token, key));
    }

    method Ask() returns (e: Event)
      requires OnPath()
      modifies this`asked, this`m
      ensures OnPath() && !e.Start? && m == Answered(old(m), e)
    {
      e := AsAnswer(world(asked));
      asked := asked + 1;
      m := Step(m, e);
    }

    method EnableTransit() returns (ok: bool)
      requires OnPath() && Agrees() && m.pc.PostMount?
      modifies this`asked, this`m, this`vault
      ensures OnPath() && Agrees()
      ensures if ok then m.pc.ReadSigning? && TRANSIT in vault.mounts else m.pc.Failed?
      ensures ok && !Conflict(old(vault)) ==> vault.Mounted(TRANSIT, "transit") && KeyName(transitKey) in vault.keys
      ensures KeysKept(old(vault), vault) && MountsKept(old(vault), vault)
    {
      hide Driven;
      var e := Ask();
      if e.Ok? || e.Lost? {
        vault := EnableMount(vault, vaultToken, TRANSIT, TRANSIT_ENGINE);
      }
      if !e.Ok? || !vault.Allows(vaultToken) {
        return false;
      }
      var keyName := if transitKey == "" then DEFAULT_KEY else transitKey;
      e := Ask();
      if e.Ok? || e.Lost? {
        vault := CreateKey(vault, vaultToken, keyName, KEY_TYPE);
      }
      return e.Ok?;
    }

    method SeedJWTSigningKey() returns (ok: bool)
      requires OnPath() && Agrees() && m.pc.ReadSigning?
      modifies this`asked, this`m, this`signing, this`drawn
      ensures OnPath() && Agrees()
      ensures if ok then m.pc.Started? && signing.Some? else m.pc.Failed?
      ensures signing == old(signing) || signing == Some(old(drawn))
    {
      hide Driven;
      var writable := vault.Allows(vaultToken) && SECRET in vault.mounts && vault.mounts[SECRET] == KV2;
      var e := Ask();
      if e.Ok? && writable && signing.Some? {
        return true;
      }
      var generated := drawn;
      drawn := drawn + 1;
      e := Ask();
      if (e.Ok? || e.Lost?) && writable {
        signing := Some(generated);
        return e.Ok?;
      }
      return false;
    }

    /** Start, once the server is ready. */
    method Start() returns (ok: bool)
      requires OnPath() && Agrees() && m.pc.PostMount?
      modifies this`asked, this`m, this`vault, this`signing, this`drawn
      ensures OnPath() && Agrees()
      ensures if ok then m.pc.Started? else m.pc.Failed?
    {
      ok := EnableTransit();
      if ok {
        ok := SeedJWTSigningKey();
      }
    }
  }
}
