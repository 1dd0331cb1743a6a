/**
 The hooks `newKubernetesStack` registers (pkg/tarmak/stack/kubernetes_stack.go),
 run against one world: the Kubernetes stack and the disk holding the Puppet
 archive. Hooks registered by other stacks are not part of this model.
 */
module StackHooks {
  import opened Wrappers
  import opened KubernetesStacks
  import opened VaultSetup
  import opened PuppetArtifacts

  datatype World = World(stack: KubernetesStack, disk: Disk)

  /** The outcomes of every foreign call the three hooks can make. */
  datatype HookEnv = HookEnv(vault: VaultEnvironment, artifact: ArtifactEnv)

  datatype HookError = VaultFailed(vault: VaultError) | ArtifactFailed(message: string)

  datatype HookRun = HookRun(world: World, err: Option<HookError>)

  /** Whether the hook is one of the three this stack defines. */
  predicate IsKubernetesHook(hook: Hook) {
    hook.EnsureVaultSetupHook? || hook.EnsurePuppetTarGzHook? || hook.EmptyPuppetTarGzHook?
  }

  function ArtifactError(err: Option<string>): (e: Option<HookError>)
    ensures e.None? <==> err.None?
  {
    if err.None? then None else Some(ArtifactFailed(err.value))
  }

  /** Where the archive hooks found the file: its bytes, or nothing when it did not exist. */
  function OldArchive(d: Disk, path: string): seq<byte> {
    if path in d.files then d.files[path].data else []
  }

  /**
   Calls a Kubernetes hook as the constructor registers it: the vault setup
   touches only the stack and the artifact hooks only the disk. The archive
   hook writes over the old file without truncating it, and leaves its handle
   open when `TarGz` fails.
   */
  function RunHook(hook: Hook, w: World, env: HookEnv): (r: Option<HookRun>)
    ensures r.Some? <==> IsKubernetesHook(hook)
    ensures r.Some? && !hook.EnsurePuppetTarGzHook? ==> r.value.world.disk.openHandles == w.disk.openHandles
    ensures r.Some? && hook.EnsurePuppetTarGzHook? ==> r.value.world.disk.openHandles <= w.disk.openHandles + 1
    ensures r.Some? && hook.EnsurePuppetTarGzHook? && env.artifact.rootPath.Success? && env.artifact.open.Pass? ==>
      (r.value.world.disk.openHandles == w.disk.openHandles <==> env.artifact.tarGz.Success?)
    ensures r.Some? && hook.EnsureVaultSetupHook? ==> r.value.world.disk == w.disk
    ensures r.Some? && hook.EnsureVaultSetupHook? ==> (r.value.err.None? <==> AllSucceed(env.vault))
    ensures r.Some? && !hook.EnsureVaultSetupHook? ==> r.value.world.stack == w.stack
    ensures r.Some? && hook.EnsurePuppetTarGzHook? ==>
      (r.value.err.None? <==> env.artifact.rootPath.Success? && env.artifact.open.Pass? && env.artifact.tarGz.Success? && env.artifact.close.Pass?)
    ensures r.Some? && hook.EnsurePuppetTarGzHook? && r.value.err.None? && env.artifact.rootPath.Success? && env.artifact.tarGz.Success? ==>
      var path := PuppetTarGzPath(env.artifact.rootPath).value;
      path in r.value.world.disk.files
      && r.value.world.disk.files[path].data == WriteAtStart(OldArchive(w.disk, path), env.artifact.tarGz.value)
  {
    match hook
    case EnsureVaultSetupHook =>
      var v := EnsureVaultSetupRun(w.stack, env.vault);
      Some(HookRun(w.(stack := v.stack), if v.err.None? then None else Some(VaultFailed(v.err.value))))
    case EnsurePuppetTarGzHook =>
      var a := EnsurePuppetTarGzAsWritten(w.disk, env.artifact);
      Some(HookRun(w.(disk := a.disk), ArtifactError(a.err)))
    case EmptyPuppetTarGzHook =>
      var a := EmptyPuppetTarGz(w.disk, env.artifact);
      Some(HookRun(w.(disk := a.disk), ArtifactError(a.err)))
    case OtherHook(_) => None
  }

  /**
   The same hooks with the two artifact hooks corrected: the archive hook
   leaves exactly the archive and never a handle open, the emptying hook
   leaves an empty file.
   */
  function RunHookCorrected(hook: Hook, w: World, env: HookEnv): (r: Option<HookRun>)
    ensures r.Some? <==> IsKubernetesHook(hook)
    ensures r.Some? ==> r.value.world.disk.openHandles == w.disk.openHandles
    ensures r.Some? && hook.EnsureVaultSetupHook? ==> r.value == RunHook(hook, w, env).value
    ensures r.Some? && !hook.EnsureVaultSetupHook? ==> r.value.world.stack == w.stack
    ensures r.Some? && hook.EnsurePuppetTarGzHook? && r.value.err.None? && env.artifact.rootPath.Success? && env.artifact.tarGz.Success? ==>
      var path := PuppetTarGzPath(env.artifact.rootPath).value;
      path in r.value.world.disk.files && r.value.world.disk.files[path].data == env.artifact.tarGz.value
    ensures r.Some? && hook.EmptyPuppetTarGzHook? && env.artifact.rootPath.Success? && env.artifact.open.Pass? ==>
      var path := PuppetTarGzPath(env.artifact.rootPath).value;
      path in r.value.world.disk.files && r.value.world.disk.files[path].data == []
  {
    match hook
    case EnsureVaultSetupHook => RunHook(hook, w, env)
    case EnsurePuppetTarGzHook =>
      var a := EnsurePuppetTarGz(w.disk, env.artifact);
      Some(HookRun(w.(disk := a.disk), ArtifactError(a.err)))
    case EmptyPuppetTarGzHook =>
      var a := EmptyPuppetTarGzCorrected(w.disk, env.artifact);
      Some(HookRun(w.(disk := a.disk), ArtifactError(a.err)))
    case OtherHook(_) => None
  }

  /** Every hook the constructor appends, to either chain, is one this model can run. */
  lemma AddedHooksRunnable(s: Stack, w: World, env: HookEnv)
    ensures forall i :: |s.verifyPreDeploy| <= i < |NewKubernetesStack(s).stack.verifyPreDeploy| ==>
      RunHook(NewKubernetesStack(s).stack.verifyPreDeploy[i], w, env).Some?
    ensures forall i :: |s.verifyPreDestroy| <= i < |NewKubernetesStack(s).stack.verifyPreDestroy| ==>
      RunHook(NewKubernetesStack(s).stack.verifyPreDestroy[i], w, env).Some?
  {
  }

  /**
   The two pre-deploy hooks of a new stack, run in order in an environment
   where every call succeeds, leave the issued tokens as the variables and the
   archive written over the start of the old file; when there was no file, or
   it was no longer than the archive, exactly the archive.
   */
  lemma PreDeployHooksSucceed(s: Stack, disk: Disk, env: HookEnv)
    requires AllSucceed(env.vault)
    requires env.artifact.rootPath.Success? && env.artifact.open.Pass? && env.artifact.tarGz.Success? && env.artifact.close.Pass?
    ensures var k := NewKubernetesStack(s);
      var first := RunHook(EnsureVaultSetupHook, World(k, disk), env).value;
      var second := RunHook(EnsurePuppetTarGzHook, first.world, env).value;
      var path := PuppetTarGzPath(env.artifact.rootPath).value;
      && first.err.None? && second.err.None?
      && Variables(second.world.stack) == TokenVariables(env.vault.issued)
      && path in second.world.disk.files
      && second.world.disk.files[path].data == WriteAtStart(OldArchive(disk, path), env.artifact.tarGz.value)
      && (|OldArchive(disk, path)| <= |env.artifact.tarGz.value| ==> second.world.disk.files[path].data == env.artifact.tarGz.value)
  {
  }

  /** With the corrected hooks the same run leaves exactly the archive, whatever the file held before. */
  lemma PreDeployHooksSucceedCorrected(s: Stack, disk: Disk, env: HookEnv)
    requires AllSucceed(env.vault)
    requires env.artifact.rootPath.Success? && env.artifact.open.Pass? && env.artifact.tarGz.Success? && env.artifact.close.Pass?
    ensures var k := NewKubernetesStack(s);
      var first := RunHookCorrected(EnsureVaultSetupHook, World(k, disk), env).value;
      var second := RunHookCorrected(EnsurePuppetTarGzHook, first.world, env).value;
      var path := PuppetTarGzPath(env.artifact.rootPath).value;
      && first.err.None? && second.err.None?
      && Variables(second.world.stack) == TokenVariables(env.vault.issued)
      && path in second.world.disk.files && second.world.disk.files[path].data == env.artifact.tarGz.value
      && second.world.disk.openHandles == disk.openHandles
  {
  }
}
