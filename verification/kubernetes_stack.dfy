/**
 The Kubernetes stack (pkg/tarmak/stack/kubernetes_stack.go): its role table,
 the hooks it adds to the generic stack, and the variables it hands to
 Terraform.

 The pool-type keys and the stack-name constant are defined in packages that
 are not part of this model; they appear here as enumerations. The hooks are
 Go method values bound to the new stack; here each is a tag.
 */
module KubernetesStacks {
  import opened Wrappers
  import opened Roles

  /** Server pool types the Kubernetes stack provides roles for. */
  datatype PoolType = Etcd | Master | Node

  datatype StackName = StackNameKubernetes | OtherStackName(name: string)

  /** A verification hook of a stack's pre-deploy or pre-destroy chain. */
  datatype Hook = EnsureVaultSetupHook | EnsurePuppetTarGzHook | EmptyPuppetTarGzHook | OtherHook(id: nat)

  /** The generic stack fields the Kubernetes stack reads or writes. */
  datatype Stack = Stack(
    name: StackName,
    contextName: string,
    roles: map<PoolType, Role>,
    verifyPreDeploy: seq<Hook>,
    verifyPreDestroy: seq<Hook>)

  /** `initTokens` is Go's `map[string]interface{}`, nil until the vault setup succeeds. */
  datatype KubernetesStack = KubernetesStack(stack: Stack, initTokens: Option<map<string, string>>)

  const RolePrefix := "kubernetes"

  const MasterRole := Role(false, NoAWS.(elbAPI := true, iamEC2Full := true, iamELBFull := true), "master", RolePrefix)
  const NodeRole := Role(false, NoAWS.(elbIngress := true, iamEC2Read := true, iamEC2ModifyInstanceAttributes := true), "worker", RolePrefix)
  const EtcdRole := Role(true, NoAWS, "etcd", RolePrefix)
  /** Built by the constructor with the master's permissions, then never entered into the table. */
  const MasterEtcdRole := Role(false, NoAWS.(elbAPI := true, iamEC2Full := true, iamELBFull := true), "etcd-master", RolePrefix)

  /**
   `newKubernetesStack(s)`: replaces the role table and the stack name, keeps
   the existing hooks and appends the Kubernetes ones. It never fails.
   */
  function NewKubernetesStack(s: Stack): (k: KubernetesStack)
    ensures k.stack.roles.Keys == {Etcd, Master, Node}
    ensures forall p :: p in k.stack.roles ==> k.stack.roles[p].prefix == "kubernetes"
    ensures forall p :: p in k.stack.roles ==> (k.stack.roles[p].stateful <==> p == Etcd)
    ensures k.stack.roles[Etcd].name == "etcd"
    ensures k.stack.roles[Master].name == "master"
    ensures k.stack.roles[Node].name == "worker"
    ensures forall p :: p in k.stack.roles ==> (k.stack.roles[p].aws.elbAPI <==> p == Master)
    ensures forall p :: p in k.stack.roles ==> (k.stack.roles[p].aws.elbIngress <==> p == Node)
    ensures NoPermissions(k.stack.roles[Etcd].aws)
    ensures MasterEtcdRole !in k.stack.roles.Values
    ensures k.stack.name == StackNameKubernetes
    ensures k.stack.contextName == s.contextName
    ensures |k.stack.verifyPreDeploy| == |s.verifyPreDeploy| + 2
    ensures k.stack.verifyPreDeploy[..|s.verifyPreDeploy|] == s.verifyPreDeploy
    ensures k.stack.verifyPreDeploy[|s.verifyPreDeploy|] == EnsureVaultSetupHook
    ensures k.stack.verifyPreDeploy[|s.verifyPreDeploy| + 1] == EnsurePuppetTarGzHook
    ensures |k.stack.verifyPreDestroy| == |s.verifyPreDestroy| + 1
    ensures k.stack.verifyPreDestroy[..|s.verifyPreDestroy|] == s.verifyPreDestroy
    ensures k.stack.verifyPreDestroy[|s.verifyPreDestroy|] == EmptyPuppetTarGzHook
    ensures k.initTokens.None?
  {
    var roles := map[Etcd := EtcdRole, Master := MasterRole, Node := NodeRole];
    var s1 := s.(roles := roles, name := StackNameKubernetes);
    var s2 := s1.(verifyPreDeploy := s1.verifyPreDeploy + [EnsureVaultSetupHook]);
    var s3 := s2.(verifyPreDeploy := s2.verifyPreDeploy + [EnsurePuppetTarGzHook]);
    var s4 := s3.(verifyPreDestroy := s3.verifyPreDestroy + [EmptyPuppetTarGzHook]);
    KubernetesStack(s4, None)
  }

  /** `Variables()`: the init tokens once set, otherwise a new empty map; never nil. */
  function Variables(k: KubernetesStack): (v: map<string, string>)
    ensures k.initTokens.Some? ==> v == k.initTokens.value
    ensures k.initTokens.None? ==> |v| == 0
  {
    if k.initTokens.Some? then k.initTokens.value else map[]
  }

  /** The pool a role name of the table belongs to; the inverse of the table's names. */
  function PoolOfRoleName(name: string): (p: Option<PoolType>)
    ensures p.Some? ==> name in {"etcd", "master", "worker"}
  {
    if name == "etcd" then Some(Etcd)
    else if name == "master" then Some(Master)
    else if name == "worker" then Some(Node)
    else None
  }

  /** A freshly built stack has no variables yet. */
  lemma VariablesAfterConstruction(s: Stack)
    ensures Variables(NewKubernetesStack(s)) == map[]
  {
  }

  /** Every role in the table is named after exactly one pool: its name leads back to its key. */
  lemma RoleNamesIdentifyPools(s: Stack, p: PoolType)
    ensures PoolOfRoleName(NewKubernetesStack(s).stack.roles[p].name) == Some(p)
  {
  }

  /** Distinct pools have distinct roles, and the unused `etcd-master` name leads to no pool. */
  lemma RoleNamesDistinct(s: Stack, p: PoolType, q: PoolType)
    ensures p != q ==> NewKubernetesStack(s).stack.roles[p].name != NewKubernetesStack(s).stack.roles[q].name
    ensures PoolOfRoleName(MasterEtcdRole.name) == None
  {
  }

  /** The role table and the stack name do not depend on the stack they are built on. */
  lemma ConstructionTableIndependent(s: Stack, t: Stack)
    ensures NewKubernetesStack(s).stack.roles == NewKubernetesStack(t).stack.roles
    ensures NewKubernetesStack(s).stack.name == NewKubernetesStack(t).stack.name
  {
  }
}
