# tarmak: Kubernetes stack, wing deep copies and manifest states, in Dafny

This project models three pieces of tarmak, the Kubernetes cluster provisioning
tool. All three are pure logic once their I/O is set aside.

- **The Kubernetes stack** (`pkg/tarmak/stack/kubernetes_stack.go`):
  - `newKubernetesStack` fills the role table for the etcd, master and node pools and registers three verification hooks.
  - `Variables` hands the stack's Terraform variables out.
  - The `ensureVaultSetup` pre-deploy hook opens a Vault tunnel, makes sure Vault is set up and stores the init tokens Vault issued as `vault_init_token_<role>` variables.
  - `ensurePuppetTarGz` and `emptyPuppetTarGz` write the Puppet archive at `<root>/terraform/aws-centos/kubernetes/puppet.tar.gz`, or make sure it exists.
- **The generated deep copies of the wing API group** (`pkg/apis/wing/v1alpha1/zz_generated.deepcopy.go`). These cover `Instance`, `InstanceList`, `InstanceSpec`, `InstanceStatus` and `InstanceStatusManifest`. The wing type declarations are not part of this model. Their shape follows `InstanceState*` in `pkg/apis/tarmak/v1alpha1/types.go`.
- **The manifest convergence states** (`pkg/apis/wing/v1alpha1/constants.go`): `converging`, `converged` and `error`.

Modules:

| file | module | contents |
|---|---|---|
| `wrappers.dfy` | `Wrappers` | `Option`, `Result`, `Outcome` |
| `manifest_state.dfy` | `ManifestStates` | the state enumeration and its wire strings |
| `wing_types.dfy` | `WingTypes` | the wing records, and a heap of Go objects with frame lemmas |
| `wing_deepcopy.dfy` | `WingDeepCopy` | `DeepCopyInto`, `DeepCopy` and `DeepCopyObject` for every wing type |
| `roles.dfy` | `Roles` | the role fields the stack sets |
| `kubernetes_stack.dfy` | `KubernetesStacks` | the constructor, the role table and `Variables` |
| `vault_setup.dfy` | `VaultSetup` | `ensureVaultSetup` and the token variables |
| `puppet_artifact.dfy` | `PuppetArtifacts` | the archive path and the two artifact hooks |
| `stack_hooks.dfy` | `StackHooks` | running the three hooks the constructor registers |

How Go pointers are modelled: every heap object lives in a `Heap`. The heap has
one map per Go type from a reference to the object, plus an allocation counter
`next`.

- A pointer field is an `Option<Ref>`, and a slice is `None` (nil) or a reference to a backing array.
- `Resolve*` follows every pointer, so two objects are deep-equal when they resolve to the same value.
- `*Footprint` is the set of references an object reaches.
- A copy is "fresh" when its footprint lies in `[h.next, h'.next)`. No object of the original heap lives in that range.

The foreign calls are parameters fixed in advance:

- Terraform, Vault, the tunnel, vault-helper, Puppet's `TarGz`, `RootPath` and `os.OpenFile`/`Close` are given as outcomes in `VaultEnvironment`, `ArtifactEnv` and `HookEnv`.
- Each hook returns the state it leaves, the calls it made in order, and its error.

## Model

| member | source | states |
|---|---|---|
| `ManifestStates.ToWire` | pkg/apis/wing/v1alpha1/constants.go:5-9 | every state has a non-empty wire string |
| `ManifestStates.FromWire` | pkg/apis/wing/v1alpha1/constants.go:3-9 | parsing succeeds exactly on the three wire strings and gives a state whose string is the input |
| `ManifestStates.WireStrings` | pkg/apis/wing/v1alpha1/constants.go:6-8 | Converging, Converged and Error are "converging", "converged" and "error" |
| `ManifestStates.WireInjective` | pkg/apis/wing/v1alpha1/constants.go:5-9 | two states have the same wire string only if they are the same state |
| `ManifestStates.WireRoundTrip` | pkg/apis/wing/v1alpha1/constants.go:5-9 | parsing a state's wire string gives that state back |
| `ManifestStates.WireRoundTripString` | pkg/apis/wing/v1alpha1/constants.go:5-9 | a string that parses is the wire string of what it parses to |
| `WingDeepCopy.StatusManifestDeepCopyInto` | pkg/apis/wing/v1alpha1/zz_generated.deepcopy.go:192-195 | `*out` becomes equal to `*in`; nothing else in the heap changes |
| `WingDeepCopy.StatusManifestDeepCopy` | pkg/apis/wing/v1alpha1/zz_generated.deepcopy.go:198-205 | nil gives nil and no allocation; otherwise a fresh manifest equal to the original, and all existing objects are unchanged |
| `WingDeepCopy.SpecDeepCopyInto` | pkg/apis/wing/v1alpha1/zz_generated.deepcopy.go:142-145 | `*out` becomes equal to `*in`; nothing else in the heap changes |
| `WingDeepCopy.SpecDeepCopy` | pkg/apis/wing/v1alpha1/zz_generated.deepcopy.go:148-155 | nil gives nil and no allocation; otherwise a fresh spec equal to the original, and all existing objects are unchanged |
| `WingDeepCopy.CopyStatusFields` | pkg/apis/wing/v1alpha1/zz_generated.deepcopy.go:158-179 | Converge and DryRun are each copied: nil stays nil, a present one becomes a fresh equal manifest |
| `WingDeepCopy.StatusDeepCopyInto` | pkg/apis/wing/v1alpha1/zz_generated.deepcopy.go:158-179 | `*out` resolves to what `*in` resolves to, with nil-ness of both fields kept and every pointer fresh; only `out` among existing objects changes |
| `WingDeepCopy.StatusDeepCopy` | pkg/apis/wing/v1alpha1/zz_generated.deepcopy.go:182-189 | nil gives nil; otherwise a fresh status, sharing no object with the heap before, that resolves to the original |
| `WingDeepCopy.CopyInstanceFields` | pkg/apis/wing/v1alpha1/zz_generated.deepcopy.go:63-86 | Spec and Status are copied: nil stays nil, a present one becomes a fresh object equal to the original; metadata, ID and pool are kept |
| `WingDeepCopy.InstanceDeepCopyInto` | pkg/apis/wing/v1alpha1/zz_generated.deepcopy.go:63-86 | `*out` resolves to what `*in` resolves to, with nil fields kept and every pointer fresh; only `out` among existing objects changes |
| `WingDeepCopy.InstanceDeepCopy` | pkg/apis/wing/v1alpha1/zz_generated.deepcopy.go:89-96 | nil gives nil; otherwise a fresh instance equal to the original whose footprint is disjoint from the original's |
| `WingDeepCopy.InstanceDeepCopyObject` | pkg/apis/wing/v1alpha1/zz_generated.deepcopy.go:99-105 | nil gives a nil object; otherwise an instance object with the same guarantees as `DeepCopy` |
| `WingDeepCopy.AppendSlot` | pkg/apis/wing/v1alpha1/zz_generated.deepcopy.go:115-117 | storing a copy into the next slot of the new array leaves the copied prefix unchanged and extends it by that copy |
| `WingDeepCopy.CopySlot` | pkg/apis/wing/v1alpha1/zz_generated.deepcopy.go:116 | one loop step: after it, the first i+1 slots resolve to the first i+1 input elements, all fresh |
| `WingDeepCopy.CopyItems` | pkg/apis/wing/v1alpha1/zz_generated.deepcopy.go:114-117 | a new array of the same length whose element i resolves to input element i and shares nothing with the input |
| `WingDeepCopy.InstanceListDeepCopyInto` | pkg/apis/wing/v1alpha1/zz_generated.deepcopy.go:108-120 | nil Items stays nil; otherwise a fresh array element-wise equal to the original; only `out` among existing objects changes |
| `WingDeepCopy.InstanceListDeepCopy` | pkg/apis/wing/v1alpha1/zz_generated.deepcopy.go:123-130 | nil gives nil; otherwise a fresh list equal to the original whose footprint is disjoint from the original's |
| `WingDeepCopy.InstanceListDeepCopyObject` | pkg/apis/wing/v1alpha1/zz_generated.deepcopy.go:133-139 | nil gives a nil object; otherwise a list object with the same guarantees as `DeepCopy` |
| `WingDeepCopy.InstanceCopyIndependent` | pkg/apis/wing/v1alpha1/zz_generated.deepcopy.go:63-96 | any later write through the copied instance or the objects it reaches leaves the original resolving as before |
| `WingDeepCopy.ListCopyIndependent` | pkg/apis/wing/v1alpha1/zz_generated.deepcopy.go:108-130 | any later write through the copied list, its array or its instances leaves the original resolving as before |
| `KubernetesStacks.NewKubernetesStack` | pkg/tarmak/stack/kubernetes_stack.go:22-75 | the roles are keyed exactly by etcd, master and node, named etcd, master and worker, prefixed "kubernetes"; only etcd is stateful; only master has ELB API and only node ELB ingress access; `etcd-master` is not in the table; the name is Kubernetes; the old hooks come first, then the vault setup and the archive hook, and pre-destroy gains only the emptying hook; no init tokens |
| `KubernetesStacks.Variables` | pkg/tarmak/stack/kubernetes_stack.go:77-82 | the init tokens when set, otherwise an empty map; never nil |
| `KubernetesStacks.VariablesAfterConstruction` | pkg/tarmak/stack/kubernetes_stack.go:74-82 | a new stack has no variables |
| `KubernetesStacks.RoleNamesIdentifyPools` | pkg/tarmak/stack/kubernetes_stack.go:63-67 | each role's name leads back, through the model's inverse `PoolOfRoleName`, to the pool it is keyed by |
| `KubernetesStacks.RoleNamesDistinct` | pkg/tarmak/stack/kubernetes_stack.go:53-67 | distinct pools have distinctly named roles; `etcd-master` leads to no pool |
| `KubernetesStacks.ConstructionTableIndependent` | pkg/tarmak/stack/kubernetes_stack.go:63-69 | the role table and stack name do not depend on the input stack |
| `VaultSetup.TokenKey` | pkg/tarmak/stack/kubernetes_stack.go:172 | the key is the prefix `vault_init_token_` followed by the role |
| `VaultSetup.RoleOfKey` | pkg/tarmak/stack/kubernetes_stack.go:172 | stripping the prefix inverts `TokenKey` |
| `VaultSetup.TokenVariables` | pkg/tarmak/stack/kubernetes_stack.go:170-173 | every issued role appears under its key with its token, and every key is a prefixed issued role |
| `VaultSetup.EnsureVaultSetupRun` | pkg/tarmak/stack/kubernetes_stack.go:137-176 | success exactly when the vault stack is a `*VaultStack`, the tunnel opens, the root token and `Ensure` succeed; then the tokens replace the variables; on every error the stack is unchanged and the error is the first failing step's |
| `VaultSetup.TunnelReleasedOnce` | pkg/tarmak/stack/kubernetes_stack.go:148-152 | `Stop` runs exactly once, as the last call, when the tunnel opened, and never otherwise |
| `VaultSetup.SetupCallOrder` | pkg/tarmak/stack/kubernetes_stack.go:140-166 | the exact calls on each exit path: outputs, then the tunnel, then the root token, the token, the cluster ID (the context name), `Ensure` and `Stop`; nothing runs after the first failing step except `Stop` once the tunnel is up; `Ensure` comes only after the token and cluster ID are set |
| `VaultSetup.TokenKeysCount` | pkg/tarmak/stack/kubernetes_stack.go:171-173 | distinct roles give distinct keys |
| `VaultSetup.TokenVariablesSize` | pkg/tarmak/stack/kubernetes_stack.go:170-173 | there are exactly as many variables as issued tokens |
| `VaultSetup.TokenVariablesRoundTrip` | pkg/tarmak/stack/kubernetes_stack.go:170-173 | every variable's key strips back to an issued role, and its value is that role's token |
| `VaultSetup.VariablesAfterSetup` | pkg/tarmak/stack/kubernetes_stack.go:170-173 | after a success the variables are the token variables, as many as issued tokens |
| `VaultSetup.SetupDiscardsEarlierTokens` | pkg/tarmak/stack/kubernetes_stack.go:170 | a success drops every earlier variable that was not reissued |
| `VaultSetup.FailedSetupKeepsVariables` | pkg/tarmak/stack/kubernetes_stack.go:143-168 | a failed run leaves the variables as they were |
| `VaultSetup.SetupIdempotent` | pkg/tarmak/stack/kubernetes_stack.go:170-173 | running the hook twice in the same environment leaves the same stack as once |
| `PuppetArtifacts.JoinPath` | pkg/tarmak/stack/kubernetes_stack.go:90 | the joined path is empty only when every element is |
| `PuppetArtifacts.PuppetTarGzPath` | pkg/tarmak/stack/kubernetes_stack.go:84-93 | the archive is `terraform/aws-centos/kubernetes/puppet.tar.gz` under the root path; a root path error is wrapped as "error getting rootPath: ..." |
| `PuppetArtifacts.ArtifactSuffixJoined` | pkg/tarmak/stack/kubernetes_stack.go:90 | the four fixed elements join to the archive's relative path |
| `PuppetArtifacts.OpenFile` | pkg/tarmak/stack/kubernetes_stack.go:101 | create makes a missing file empty with the given permissions, an existing one keeps its contents unless truncating, and a handle is held; other files are untouched |
| `PuppetArtifacts.WriteAtStart` | pkg/tarmak/stack/kubernetes_stack.go:125 | the written bytes come first, followed by whatever of the old contents lies past them |
| `PuppetArtifacts.WriteArchiveTo` | pkg/tarmak/stack/kubernetes_stack.go:125 | the archive is written from the start of the open file, keeping its permissions; other files and the handle count are unchanged |
| `PuppetArtifacts.CloseFile` | pkg/tarmak/stack/kubernetes_stack.go:106 | the handle is released and no file changes |
| `PuppetArtifacts.EmptyAt` | pkg/tarmak/stack/kubernetes_stack.go:101-111 | open with create then close, stopping at the first failure with an error naming the path; afterwards the file exists, existing contents are kept, nothing is deleted, no handle is left open |
| `PuppetArtifacts.EmptyPuppetTarGz` | pkg/tarmak/stack/kubernetes_stack.go:95-99 | a root path error is returned before any file call |
| `PuppetArtifacts.EmptyPuppetTarGzIdempotent` | pkg/tarmak/stack/kubernetes_stack.go:95-112 | running the hook twice leaves the same files as once |
| `PuppetArtifacts.ArchiveSurvivesEmptyAsWritten` | pkg/tarmak/stack/kubernetes_stack.go:95-111 | an archive of three bytes is still three bytes after the emptying hook reports success |
| `PuppetArtifacts.EmptyTruncatingAt` | pkg/tarmak/stack/kubernetes_stack.go:101-111 | the corrected emptying: after a successful open the file exists and is zero-length, keeping an existing file's permissions; other files untouched, no handle left open, errors name the path |
| `PuppetArtifacts.EmptyPuppetTarGzCorrected` | pkg/tarmak/stack/kubernetes_stack.go:95-99 | a root path error is returned before any file call; otherwise the corrected emptying at the archive path |
| `PuppetArtifacts.EmptyCorrectedTwice` | pkg/tarmak/stack/kubernetes_stack.go:95-112 | the corrected hook leaves the archive present and empty, and a second run changes nothing |
| `PuppetArtifacts.EnsureAsWrittenAt` | pkg/tarmak/stack/kubernetes_stack.go:120-134 | open, write, close, stopping at the first failure with an error naming the path; a write error leaves the file open; success writes the archive over the old contents without truncating |
| `PuppetArtifacts.EnsurePuppetTarGzAsWritten` | pkg/tarmak/stack/kubernetes_stack.go:114-118 | a root path error is returned before any file call |
| `PuppetArtifacts.StaleBytesSurviveAsWritten` | pkg/tarmak/stack/kubernetes_stack.go:120-127 | a one-byte archive written over three bytes leaves three bytes, not the archive |
| `PuppetArtifacts.HandleLeakAsWritten` | pkg/tarmak/stack/kubernetes_stack.go:125-127 | a failing `TarGz` returns with one more open handle |
| `PuppetArtifacts.EnsureAt` | pkg/tarmak/stack/kubernetes_stack.go:114-135 | the corrected hook: on success the file holds exactly the archive; every path after a successful open closes the file; errors name the path |
| `PuppetArtifacts.EnsurePuppetTarGz` | pkg/tarmak/stack/kubernetes_stack.go:114-118 | a root path error is returned before any file call |
| `PuppetArtifacts.EnsureWritesExactlyArchive` | pkg/tarmak/stack/kubernetes_stack.go:120-133 | whatever the file held, a successful run leaves exactly the archive and no handle open |
| `PuppetArtifacts.EnsureNeverLeaksHandle` | pkg/tarmak/stack/kubernetes_stack.go:120-131 | the corrected hook never leaves a handle open; the written one leaves at most one |
| `PuppetArtifacts.CorrectedAgreesWithoutStaleBytes` | pkg/tarmak/stack/kubernetes_stack.go:114-135 | when the old file is no longer than the archive, the corrected and the written hook agree |
| `StackHooks.RunHook` | pkg/tarmak/stack/kubernetes_stack.go:70-72 | exactly the three registered Kubernetes hooks run, as written; the vault hook touches only the stack, the artifact hooks only the disk; the vault and emptying hooks leave the handle count unchanged, the archive hook leaves at most one more, exactly when the open succeeds and `TarGz` fails; a successful archive hook leaves the archive written over the start of the old file |
| `StackHooks.RunHookCorrected` | pkg/tarmak/stack/kubernetes_stack.go:70-72 | the same three hooks with the corrected artifact hooks: no handle is ever left open, a successful archive hook leaves exactly the archive, and the emptying hook leaves an empty file |
| `StackHooks.AddedHooksRunnable` | pkg/tarmak/stack/kubernetes_stack.go:70-72 | every hook the constructor appends can be run |
| `StackHooks.PreDeployHooksSucceed` | pkg/tarmak/stack/kubernetes_stack.go:70-71 | when every call succeeds, the two registered pre-deploy hooks leave the issued tokens as variables and the archive written over the start of the old file, which is exactly the archive when the old file was no longer |
| `StackHooks.PreDeployHooksSucceedCorrected` | pkg/tarmak/stack/kubernetes_stack.go:70-71 | with the corrected hooks the same run leaves exactly the archive whatever the file held, and no handle open |

## Left out

- Deep-copy registration (`RegisterDeepCopies`, `init`) is runtime plumbing built on reflection and `interface{}` casts.
- `ObjectMeta.DeepCopyInto` and `TypeMeta` are Kubernetes library code. Both are values that copy to an equal value; `ObjectMeta` has only the name, namespace and resource version here.
- WingDeepCopy.InstanceDeepCopyInto: requires `src != dst`. Copying an object onto itself in Go replaces each pointer with a new zero-valued object before reading from it, so the pointees' data is lost; that aliasing is not modelled.
- WingDeepCopy.StatusDeepCopyInto: requires `src != dst`, for the same reason.
- WingDeepCopy.InstanceListDeepCopyInto: requires `src != dst`, for the same reason.
- The heap's `Valid` only bounds references by `next`. It does not say that the six per-type maps use disjoint references. Go guarantees that; the model never needs it.
- PuppetArtifacts.JoinPath: `filepath.Join` also runs `Clean`, so a root path with a trailing `/`, `.` or `..` element comes out normalised in Go. Here the elements are only joined.
- PuppetArtifacts.OpenFile: the process umask is not applied to the permission bits `0600`.
- A failing `TarGz` is taken to have written nothing. Partial writes before the error are not modelled.
- `fmt.Errorf("... %s", err)` is string concatenation with the error's text. `%T` for the unexpected vault stack is the Go type name given in the environment.
- The result of `Terraform().Output(vaultStack)` is ignored by the source. It appears only as the first call of the trace.
- Go map iteration order in the token loop does not affect the resulting map. The loop is a map comprehension.
- The role package (`WithName`, `WithPrefix`) is not part of this model. Roles carry only the values passed in.
- The pool-type constants and `StackNameKubernetes` are defined in packages that are not part of this model. They are enumerations here, not strings.
- Running the pre-deploy and pre-destroy chains, and the hash-driven convergence of instances, are not in these files.
- JSON tags in `pkg/apis/tarmak/v1alpha1/types.go` are an encoding concern. That includes the duplicated `instanceID` tag on `InstancePool`.

## Findings

| source | as written | input that shows it | evidently intended | confidence | as-written member | corrected member |
|---|---|---|---|---|---|---|
| pkg/tarmak/stack/kubernetes_stack.go:120 | the archive file is opened with `O_RDWR\|O_CREATE` and no `O_TRUNC`, so an older, longer archive keeps its trailing bytes after the new one | a file holding bytes 1, 2, 3 and an archive of the single byte 9: the file ends up as 9, 2, 3 (`StaleBytesSurviveAsWritten`) | the file holds exactly the new archive (`EnsureWritesExactlyArchive`) | medium, not executed | `PuppetArtifacts.EnsurePuppetTarGzAsWritten` | `PuppetArtifacts.EnsurePuppetTarGz` |
| pkg/tarmak/stack/kubernetes_stack.go:125-127 | when `TarGz` fails the function returns without closing the file it opened | any environment where the open succeeds and `TarGz` fails: one more handle is open afterwards (`HandleLeakAsWritten`) | the file is closed on every path after a successful open (`EnsureNeverLeaksHandle`) | high, not executed | `PuppetArtifacts.EnsureAsWrittenAt` | `PuppetArtifacts.EnsureAt` |
| pkg/tarmak/stack/kubernetes_stack.go:101 | the pre-destroy hook opens the archive with `O_RDWR\|O_CREATE` and no `O_TRUNC`, then closes it, so an existing archive is kept rather than emptied | a file holding bytes 1, 2, 3: the hook succeeds and the file still holds 1, 2, 3 (`ArchiveSurvivesEmptyAsWritten`) | the archive is present and zero-length after the hook (`EmptyCorrectedTwice`) | low, not executed | `PuppetArtifacts.EmptyAt` | `PuppetArtifacts.EmptyTruncatingAt` |

`StackHooks.RunHook` runs the hooks as the constructor registers them; `StackHooks.RunHookCorrected` runs the corrected artifact hooks.
