/** The part of a Vault server the provisioners talk to: the initial root token it
    was initialized with, its live root-policy tokens, its mounts and its transit
    keys. Key material is an identity: two keys with the same number are the same
    key, so what was encrypted under one decrypts under the other. */
module VaultModel {
  import opened Options

  type Token = string

  datatype Mount = Mount(kind: string, version2: bool)

  datatype TransitKey = TransitKey(keyType: string, material: nat)

  /** `issued` is the root token of the one initialization; `live` maps every live
      token to its ancestors, which take it down with them when revoked; `minted`
      counts the key materials ever generated. */
  datatype Vault = Vault(
    issued: Option<Token>,
    live: map<Token, set<Token>>,
    mounts: map<string, Mount>,
    keys: map<string, TransitKey>,
    minted: nat)
  {
    predicate Initialized() { issued.Some? }

    predicate Allows(auth: Token) { auth in live }

    predicate Mounted(path: string, kind: string) {
      path in mounts && mounts[path].kind == kind
    }
  }

  const FRESH := Vault(None, map[], map[], map[], 0)
  const SECRET: string := "secret"
  const TRANSIT: string := "transit"
  const KV2 := Mount("kv", true)
  const TRANSIT_ENGINE := Mount("transit", false)
  const KEY_TYPE: string := "aes256-gcm96"

  // ------------------------------------------------------------------ write requests

  function Initialize(v: Vault, root: Token): Vault {
    if v.Initialized() then v else v.(issued := Some(root), live := map[root := {}])
  }

  function EnableMount(v: Vault, auth: Token, path: string, m: Mount): Vault {
    if v.Allows(auth) && path !in v.mounts then v.(mounts := v.mounts[path := m]) else v
  }

  /** Creating a key that exists leaves it alone. */
  function CreateKey(v: Vault, auth: Token, name: string, keyType: string): Vault {
    if v.Allows(auth) && v.Mounted(TRANSIT, "transit") && name !in v.keys
    then v.(keys := v.keys[name := TransitKey(keyType, v.minted)], minted := v.minted + 1)
    else v
  }

  /** auth/token/create-orphan: the new token has no ancestors. */
  function CreateOrphan(v: Vault, auth: Token, id: Token): Vault {
    if v.Allows(auth) && id !in v.live then v.(live := v.live[id := {}]) else v
  }

  /** token revoke -self: the token and everything below it. */
  function RevokeSelf(v: Vault, auth: Token): Vault {
    v.(live := map t | t in v.live && t != auth && auth !in v.live[t] :: v.live[t])
  }

  // -------------------------------------------------------------- what is never undone

  predicate KeysKept(v: Vault, w: Vault) {
    forall k | k in v.keys :: k in w.keys && w.keys[k] == v.keys[k]
  }

  predicate MountsKept(v: Vault, w: Vault) {
    forall p | p in v.mounts :: p in w.mounts && w.mounts[p] == v.mounts[p]
  }

  predicate TokensKept(v: Vault, w: Vault) {
    forall t | t in v.live :: t in w.live && w.live[t] == v.live[t]
  }

  /** What consumers and operators holding a live token may do meanwhile: create
      tokens, mounts and keys. They take nothing down and never recreate or descend
      from the initial root token. */
  predicate Grows(v: Vault, w: Vault) {
    && w.issued == v.issued && v.minted <= w.minted
    && KeysKept(v, w) && MountsKept(v, w) && TokensKept(v, w)
    && (forall t | t in w.live && t !in v.live :: Some(t) != v.issued)
    && (forall t | t in w.live && t !in v.live :: forall a | a in w.live[t] :: Some(a) != v.issued)
  }

  lemma WritesKeep(v: Vault, auth: Token, path: string, m: Mount, name: string, keyType: string, id: Token)
    ensures KeysKept(v, EnableMount(v, auth, path, m)) && MountsKept(v, EnableMount(v, auth, path, m))
    ensures KeysKept(v, CreateKey(v, auth, name, keyType)) && MountsKept(v, CreateKey(v, auth, name, keyType))
    ensures KeysKept(v, CreateOrphan(v, auth, id)) && MountsKept(v, CreateOrphan(v, auth, id))
  {
  }
}
