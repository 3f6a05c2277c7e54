/**
 * The plain projections of the stored records that the access policy reads:
 * role names, users with an optional role, request statuses and repair
 * requests reduced to their ids and status finality.
 */
module Domain {
  import opened Wrappers

  // The role names stored in the `user_role` table.
  const ManagerName: string := "Менеджер"
  const SpecialistName: string := "Специалист"
  const OperatorName: string := "Оператор"
  const ClientName: string := "Заказчик"
  const QualityManagerName: string := "Менеджер по качеству"

  /**
   * A role as a closed tag. `Unknown` carries any other stored name,
   * the empty name of a user without a role included.
   */
  datatype Role = Manager | Specialist | Operator | Client | QualityManager | Unknown(name: string)

  /** The stored name of a role. */
  function NameOf(r: Role): string {
    match r
    case Manager => ManagerName
    case Specialist => SpecialistName
    case Operator => OperatorName
    case Client => ClientName
    case QualityManager => QualityManagerName
    case Unknown(n) => n
  }

  /** A name is one of the five the application knows. */
  predicate IsKnownName(name: string) {
    name in {ManagerName, SpecialistName, OperatorName, ClientName, QualityManagerName}
  }

  /** The role a stored name denotes; every other name is `Unknown`. */
  function RoleOf(name: string): (r: Role)
    ensures NameOf(r) == name
    ensures r.Unknown? <==> !IsKnownName(name)
  {
    if name == ManagerName then Manager
    else if name == SpecialistName then Specialist
    else if name == OperatorName then Operator
    else if name == ClientName then Client
    else if name == QualityManagerName then QualityManager
    else Unknown(name)
  }

  /** Reading back the name of a role gives the role again, for the five known roles and every foreign name. */
  lemma RoleNameRoundTrip(r: Role)
    requires r.Unknown? ==> !IsKnownName(r.name)
    ensures RoleOf(NameOf(r)) == r
  {
  }

  datatype UserRoleRow = UserRoleRow(id: int, name: string)

  /** A user: its id and the role row it links to, if any. */
  datatype User = User(id: int, role: Option<UserRoleRow>)

  /** `role_name`: the role's name, or the empty string for a missing user or a user without a role. */
  function RoleName(user: Option<User>): (r: string)
    ensures user.None? || user.value.role.None? ==> r == ""
    ensures user.Some? && user.value.role.Some? ==> r == user.value.role.value.name
  {
    if user.None? then ""
    else if user.value.role.None? then ""
    else user.value.role.value.name
  }

  /** The role the policy acts on for a user. */
  function RoleOfUser(user: Option<User>): (r: Role)
    ensures user.None? || user.value.role.None? ==> r == Unknown("")
  {
    RoleOf(RoleName(user))
  }

  /** A request status: its id and whether it is final. */
  datatype Status = Status(id: int, isFinal: bool)

  /** A repair request as the policy sees it: its owner, its assigned specialist and its status. */
  datatype Ticket = Ticket(clientId: int, masterId: Option<int>, statusId: int, statusIsFinal: bool)
}
