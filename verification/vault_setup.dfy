/**
 `ensureVaultSetup` (pkg/tarmak/stack/kubernetes_stack.go): the pre-deploy
 hook that makes sure Vault is set up for the cluster and stores the init
 tokens Vault issued as stack variables.

 Every foreign call — loading the Vault stack's Terraform outputs, opening the
 tunnel, fetching the root token, vault-helper's `Ensure` and `InitTokens` —
 is an outcome fixed in advance in a `VaultEnvironment`. The hook returns the
 stack it leaves behind, the calls it made in order, and its error.
 */
module VaultSetup {
  import opened Wrappers
  import opened KubernetesStacks

  /** The dynamic type of the environment's Vault stack: `*VaultStack` or something else. */
  datatype VaultStackKind = RealVaultStack | OtherVaultStack(goType: string)

  datatype VaultEnvironment = VaultEnvironment(
    vaultStack: VaultStackKind,
    tunnel: Outcome<string>,
    rootToken: Result<string, string>,
    ensure: Outcome<string>,
    issued: map<string, string>)

  /** The foreign calls the hook makes, in the order it makes them. */
  datatype Event =
    | OutputsLoaded
    | VaultTunnelCalled
    | RootTokenFetched
    | TokenSet(token: string)
    | ClusterIDSet(id: string)
    | Ensured
    | TunnelStopped

  datatype VaultError = UnexpectedVaultStackType(goType: string) | Propagated(cause: string)

  datatype SetupRun = SetupRun(stack: KubernetesStack, trace: seq<Event>, err: Option<VaultError>)

  const TokenKeyPrefix := "vault_init_token_"

  /** The variable name of a role's init token, `fmt.Sprintf("vault_init_token_%s", role)`. */
  function TokenKey(role: string): (key: string)
    ensures |key| == |TokenKeyPrefix| + |role|
    ensures key[..|TokenKeyPrefix|] == TokenKeyPrefix && key[|TokenKeyPrefix|..] == role
  {
    TokenKeyPrefix + role
  }

  /** Whether `key` is a token variable name, i.e. starts with the prefix. */
  predicate IsTokenKey(key: string) {
    |TokenKeyPrefix| <= |key| && key[..|TokenKeyPrefix|] == TokenKeyPrefix
  }

  /** The role a token variable name stands for. */
  function RoleOfKey(key: string): (role: string)
    requires IsTokenKey(key)
    ensures TokenKey(role) == key
  {
    var role := key[|TokenKeyPrefix|..];
    assert TokenKeyPrefix + role == key;
    role
  }

  /** The variables built from the issued tokens: one `vault_init_token_<role>` entry per role. */
  function TokenVariables(issued: map<string, string>): (v: map<string, string>)
    ensures forall role :: role in issued ==> TokenKey(role) in v && v[TokenKey(role)] == issued[role]
    ensures forall key :: key in v <==> IsTokenKey(key) && RoleOfKey(key) in issued
  {
    map role | role in issued :: TokenKey(role) := issued[role]
  }

  /** The number of `TunnelStopped` events in a trace. */
  function Stops(trace: seq<Event>): nat {
    multiset(trace)[TunnelStopped]
  }

  /** Whether `VaultTunnel()` was reached and succeeded. */
  predicate TunnelOpens(env: VaultEnvironment) {
    env.vaultStack.RealVaultStack? && env.tunnel.Pass?
  }

  /** Whether every fallible step succeeds. */
  predicate AllSucceed(env: VaultEnvironment) {
    TunnelOpens(env) && env.rootToken.Success? && env.ensure.Pass?
  }

  /**
   `k.ensureVaultSetup()`. The Terraform outputs are loaded first and their
   result is not looked at. Once the tunnel is open, the deferred `Stop` runs
   on every way out; the init tokens are replaced only after `Ensure` succeeds.
   */
  function EnsureVaultSetupRun(k: KubernetesStack, env: VaultEnvironment): (r: SetupRun)
    ensures r.err.None? <==> AllSucceed(env)
    ensures r.err.None? ==> r.stack == k.(initTokens := Some(TokenVariables(env.issued)))
    ensures r.err.Some? ==> r.stack == k
    ensures env.vaultStack.OtherVaultStack? ==> r.err == Some(UnexpectedVaultStackType(env.vaultStack.goType))
    ensures env.vaultStack.RealVaultStack? && env.tunnel.Fail? ==> r.err == Some(Propagated(env.tunnel.error))
    ensures TunnelOpens(env) && env.rootToken.Failure? ==> r.err == Some(Propagated(env.rootToken.error))
    ensures TunnelOpens(env) && env.rootToken.Success? && env.ensure.Fail? ==> r.err == Some(Propagated(env.ensure.error))
  {
    var loaded := [OutputsLoaded];
    if env.vaultStack.OtherVaultStack? then
      SetupRun(k, loaded, Some(UnexpectedVaultStackType(env.vaultStack.goType)))
    else if env.tunnel.Fail? then
      SetupRun(k, loaded + [VaultTunnelCalled], Some(Propagated(env.tunnel.error)))
    else
      var tunnelUp := loaded + [VaultTunnelCalled, RootTokenFetched];
      if env.rootToken.Failure? then
        SetupRun(k, tunnelUp + [TunnelStopped], Some(Propagated(env.rootToken.error)))
      else
        var ensured := tunnelUp + [TokenSet(env.rootToken.value), ClusterIDSet(k.stack.contextName), Ensured];
        if env.ensure.Fail? then
          SetupRun(k, ensured + [TunnelStopped], Some(Propagated(env.ensure.error)))
        else
          SetupRun(k.(initTokens := Some(TokenVariables(env.issued))), ensured + [TunnelStopped], None)
  }

  /**
   The tunnel is stopped exactly once if it was opened, as the last call, and
   never if opening it failed or was not reached.
   */
  lemma TunnelReleasedOnce(k: KubernetesStack, env: VaultEnvironment)
    ensures Stops(EnsureVaultSetupRun(k, env).trace) == (if TunnelOpens(env) then 1 else 0)
    ensures TunnelOpens(env) ==> EnsureVaultSetupRun(k, env).trace[|EnsureVaultSetupRun(k, env).trace| - 1] == TunnelStopped
  {
  }

  /**
   The calls made on each way out, in order: nothing is called after the first
   failing step, the Terraform outputs are loaded before anything else, and
   `Ensure` runs only after the root token and the cluster ID (the context
   name) are set.
   */
  lemma SetupCallOrder(k: KubernetesStack, env: VaultEnvironment)
    ensures env.vaultStack.OtherVaultStack? ==> EnsureVaultSetupRun(k, env).trace == [OutputsLoaded]
    ensures env.vaultStack.RealVaultStack? && env.tunnel.Fail? ==>
      EnsureVaultSetupRun(k, env).trace == [OutputsLoaded, VaultTunnelCalled]
    ensures TunnelOpens(env) && env.rootToken.Failure? ==>
      EnsureVaultSetupRun(k, env).trace == [OutputsLoaded, VaultTunnelCalled, RootTokenFetched, TunnelStopped]
    ensures TunnelOpens(env) && env.rootToken.Success? ==>
      EnsureVaultSetupRun(k, env).trace ==
        [OutputsLoaded, VaultTunnelCalled, RootTokenFetched, TokenSet(env.rootToken.value),
         ClusterIDSet(k.stack.contextName), Ensured, TunnelStopped]
    ensures Ensured in EnsureVaultSetupRun(k, env).trace ==>
      && env.rootToken.Success?
      && exists i, j, m :: 0 <= i < j < m < |EnsureVaultSetupRun(k, env).trace|
           && EnsureVaultSetupRun(k, env).trace[i] == TokenSet(env.rootToken.value)
           && EnsureVaultSetupRun(k, env).trace[j] == ClusterIDSet(k.stack.contextName)
           && EnsureVaultSetupRun(k, env).trace[m] == Ensured
  {
    var t := EnsureVaultSetupRun(k, env).trace;
    if Ensured in t {
      assert t[3] == TokenSet(env.rootToken.value) && t[4] == ClusterIDSet(k.stack.contextName) && t[5] == Ensured;
    }
  }

  /** Distinct roles give distinct variable names, so there are as many names as roles. */
  lemma {:induction false} TokenKeysCount(roles: set<string>)
    ensures |set role | role in roles :: TokenKey(role)| == |roles|
    decreases |roles|
  {
    if roles != {} {
      var role :| role in roles;
      var rest := roles - {role};
      TokenKeysCount(rest);
      var keys := set r | r in roles :: TokenKey(r);
      var restKeys := set r | r in rest :: TokenKey(r);
      assert keys == restKeys + {TokenKey(role)};
      assert TokenKey(role) !in restKeys;
    }
  }

  /** The variables hold exactly one entry per issued token: no role is lost or merged. */
  lemma TokenVariablesSize(issued: map<string, string>)
    ensures |TokenVariables(issued)| == |issued|
  {
    var v := TokenVariables(issued);
    assert v.Keys == set role | role in issued.Keys :: TokenKey(role);
    TokenKeysCount(issued.Keys);
  }

  /** Reading a token variable back by role gives the issued token. */
  lemma TokenVariablesRoundTrip(issued: map<string, string>, key: string)
    requires key in TokenVariables(issued)
    ensures RoleOfKey(key) in issued
    ensures TokenKey(RoleOfKey(key)) == key
    ensures TokenVariables(issued)[key] == issued[RoleOfKey(key)]
  {
  }

  /** After a successful run the stack's variables are exactly the issued tokens, under their variable names. */
  lemma VariablesAfterSetup(k: KubernetesStack, env: VaultEnvironment)
    requires AllSucceed(env)
    ensures Variables(EnsureVaultSetupRun(k, env).stack) == TokenVariables(env.issued)
    ensures |Variables(EnsureVaultSetupRun(k, env).stack)| == |env.issued|
  {
    TokenVariablesSize(env.issued);
  }

  /** Earlier tokens are discarded: after a success nothing of the previous variables survives unless reissued. */
  lemma SetupDiscardsEarlierTokens(k: KubernetesStack, env: VaultEnvironment, key: string)
    requires AllSucceed(env) && k.initTokens.Some? && key in k.initTokens.value
    requires !IsTokenKey(key) || RoleOfKey(key) !in env.issued
    ensures key !in Variables(EnsureVaultSetupRun(k, env).stack)
  {
  }

  /** A failed run leaves the variables as they were. */
  lemma FailedSetupKeepsVariables(k: KubernetesStack, env: VaultEnvironment)
    requires !AllSucceed(env)
    ensures Variables(EnsureVaultSetupRun(k, env).stack) == Variables(k)
  {
  }

  /** Running the hook twice in the same environment gives the same stack as running it once. */
  lemma SetupIdempotent(k: KubernetesStack, env: VaultEnvironment)
    ensures EnsureVaultSetupRun(EnsureVaultSetupRun(k, env).stack, env).stack == EnsureVaultSetupRun(k, env).stack
  {
  }
}
