/**
 * The custom user of core/models.py: a role taken from three choices,
 * 'dispatcher' by default, and the two role predicates every view and
 * consumer of the core consults.
 */
module CoreModels {

  const DispatcherRole: string := "dispatcher"
  const ParamedicRole: string := "paramedic"
  const AdminRole: string := "admin"

  /** The choices of `User.role`, in declaration order. */
  const RoleChoices: seq<string> := [DispatcherRole, ParamedicRole, AdminRole]

  /** The role a user gets when none is given. */
  const DefaultRole: string := DispatcherRole

  /** What the request handlers see of a user: the primary key and the role. */
  datatype UserInfo = UserInfo(id: nat, role: string)

  /** The user attached to a request or a websocket scope. */
  datatype Principal = Anonymous | Authenticated(user: UserInfo)

  predicate IsDispatcher(u: UserInfo) { u.role == DispatcherRole }

  predicate IsParamedic(u: UserInfo) { u.role == ParamedicRole }

  /** No user is both a dispatcher and a paramedic. */
  lemma RolesExclusive(u: UserInfo)
    ensures !(IsDispatcher(u) && IsParamedic(u))
  {
  }

  /** Each of the three choices satisfies exactly the predicate of its name;
    * 'admin' satisfies neither. */
  lemma RoleChoicesClassified(u: UserInfo)
    requires u.role in RoleChoices
    ensures IsDispatcher(u) <==> u.role == DispatcherRole
    ensures IsParamedic(u) <==> u.role == ParamedicRole
    ensures u.role == AdminRole <==> !IsDispatcher(u) && !IsParamedic(u)
  {
  }

  /** A user created without a role is a dispatcher. */
  lemma DefaultRoleIsDispatcher(u: UserInfo)
    requires u.role == DefaultRole
    ensures IsDispatcher(u) && !IsParamedic(u)
  {
  }
}
