/**
 The part of a tarmak role that the Kubernetes stack sets: whether its
 instances keep state, the AWS permissions it asks for, and the name and
 prefix given through `WithName` and `WithPrefix`. The role package itself
 is not part of this model.
 */
module Roles {

  /** The AWS permission switches a role can turn on; all default to off. */
  datatype RoleAWS = RoleAWS(
    elbAPI: bool,
    elbIngress: bool,
    iamEC2Full: bool,
    iamEC2Read: bool,
    iamELBFull: bool,
    iamEC2ModifyInstanceAttributes: bool)

  const NoAWS := RoleAWS(false, false, false, false, false, false)

  datatype Role = Role(stateful: bool, aws: RoleAWS, name: string, prefix: string)

  /** No switch is on. */
  predicate NoPermissions(a: RoleAWS) {
    !a.elbAPI && !a.elbIngress && !a.iamEC2Full && !a.iamEC2Read && !a.iamELBFull && !a.iamEC2ModifyInstanceAttributes
  }
}
