/**
 * The role-based access policy of the application. Every predicate is
 * total and fails closed: a role outside the five known ones is denied.
 */
module Rbac {
  import opened Wrappers
  import opened Domain

  predicate IsStaff(r: Role) {
    r == Manager || r == Operator || r == QualityManager
  }

  /** `user_can_create_request`: everyone but specialists (and unknown roles). */
  function CanCreateRequest(user: User): (r: bool)
    ensures r <==> RoleOfUser(Some(user)) in {Manager, Operator, QualityManager, Client}
  {
    match RoleOfUser(Some(user))
    case Manager | Operator | QualityManager | Client => true
    case Specialist | Unknown(_) => false
  }

  /** `user_can_view_request`: staff see everything, a specialist the requests assigned to them, a client their own. */
  function CanViewRequest(user: User, t: Ticket): (r: bool)
    ensures RoleOfUser(Some(user)).Unknown? ==> !r
    ensures IsStaff(RoleOfUser(Some(user))) ==> r
    ensures RoleOfUser(Some(user)) == Specialist ==> (r <==> t.masterId == Some(user.id))
    ensures RoleOfUser(Some(user)) == Client ==> (r <==> t.clientId == user.id)
  {
    match RoleOfUser(Some(user))
    case Manager | Operator | QualityManager => true
    case Specialist => t.masterId == Some(user.id)
    case Client => t.clientId == user.id
    case Unknown(_) => false
  }

  /** `user_can_edit_request`: as viewing, except that a client loses the right once the status is final. */
  function CanEditRequest(user: User, t: Ticket): (r: bool)
    ensures RoleOfUser(Some(user)).Unknown? ==> !r
    ensures r ==> CanViewRequest(user, t)
    ensures IsStaff(RoleOfUser(Some(user))) ==> r
    ensures RoleOfUser(Some(user)) == Specialist ==> (r <==> t.masterId == Some(user.id))
    ensures RoleOfUser(Some(user)) == Client ==> (r <==> t.clientId == user.id && !t.statusIsFinal)
  {
    match RoleOfUser(Some(user))
    case Manager | Operator | QualityManager => true
    case Specialist => t.masterId == Some(user.id)
    case Client => t.clientId == user.id && !t.statusIsFinal
    case Unknown(_) => false
  }

  /** `user_can_delete_request`: managers and operators only. */
  function CanDeleteRequest(user: User): (r: bool)
    ensures r ==> RoleOfUser(Some(user)) in {Manager, Operator}
  {
    match RoleOfUser(Some(user))
    case Manager | Operator => true
    case QualityManager | Specialist | Client | Unknown(_) => false
  }

  /** `user_can_add_comment`: only the specialist assigned to the request. */
  function CanAddComment(user: User, t: Ticket): (r: bool)
    ensures r ==> RoleOfUser(Some(user)) == Specialist
    ensures r ==> CanEditRequest(user, t) && CanViewRequest(user, t)
  {
    RoleOfUser(Some(user)) == Specialist && t.masterId == Some(user.id)
  }

  /** `user_can_assign_master`: staff only. */
  function CanAssignMaster(user: User): (r: bool)
    ensures r <==> IsStaff(RoleOfUser(Some(user)))
  {
    match RoleOfUser(Some(user))
    case Manager | Operator | QualityManager => true
    case Specialist | Client | Unknown(_) => false
  }

  /**
   * `user_can_change_status`: staff may make any transition; a specialist
   * any transition except from a final status to a non-final one; a client
   * only keep the status it has.
   */
  function CanChangeStatus(user: User, from: Status, to: Status): (r: bool)
    ensures RoleOfUser(Some(user)).Unknown? ==> !r
    ensures from.id == to.id ==> (r <==> !RoleOfUser(Some(user)).Unknown?)
  {
    match RoleOfUser(Some(user))
    case Manager | Operator | QualityManager => true
    case Specialist =>
      if from.id == to.id then true
      else if from.isFinal && !to.isFinal then false
      else true
    case Client => from.id == to.id
    case Unknown(_) => false
  }

  /** `user_can_manage_users`: managers only. */
  function CanManageUsers(user: User): (r: bool)
    ensures r <==> RoleOfUser(Some(user)) == Manager
  {
    RoleName(Some(user)) == ManagerName
  }

  /** `user_can_view_statistics`: managers only. */
  function CanViewStatistics(user: User): (r: bool)
    ensures r <==> RoleOfUser(Some(user)) == Manager
  {
    RoleName(Some(user)) == ManagerName
  }

  /** A user whose role name is not one of the five is denied by every predicate. */
  lemma UnknownRoleDeniedEverything(user: User, t: Ticket, from: Status, to: Status)
    requires !IsKnownName(RoleName(Some(user)))
    ensures !CanCreateRequest(user) && !CanViewRequest(user, t) && !CanEditRequest(user, t)
    ensures !CanDeleteRequest(user) && !CanAddComment(user, t) && !CanAssignMaster(user)
    ensures !CanChangeStatus(user, from, to) && !CanManageUsers(user) && !CanViewStatistics(user)
  {
  }

  /** A client may edit a request exactly when it owns it and its status is not final. */
  lemma ClientEditIff(user: User, t: Ticket)
    requires RoleOfUser(Some(user)) == Client
    ensures CanEditRequest(user, t) <==> t.clientId == user.id && !t.statusIsFinal
  {
  }

  /** For a client, flipping ownership or finality while the other condition holds flips the edit right. */
  lemma ClientEditFlips(user: User, t: Ticket, other: int)
    requires RoleOfUser(Some(user)) == Client && other != user.id
    ensures CanEditRequest(user, t.(clientId := user.id, statusIsFinal := false))
    ensures !CanEditRequest(user, t.(clientId := user.id, statusIsFinal := true))
    ensures !CanEditRequest(user, t.(clientId := other, statusIsFinal := false))
  {
  }

  /** Specialists: a same-status submission is always allowed, un-finalising never, everything else always. */
  lemma SpecialistTransitions(user: User, from: Status, to: Status)
    requires RoleOfUser(Some(user)) == Specialist
    ensures from.id == to.id ==> CanChangeStatus(user, from, to)
    ensures from.id != to.id && from.isFinal && !to.isFinal ==> !CanChangeStatus(user, from, to)
    ensures from.id != to.id && !(from.isFinal && !to.isFinal) ==> CanChangeStatus(user, from, to)
  {
  }

  /** Clients can only keep the status; staff can make any transition. */
  lemma ClientAndStaffTransitions(user: User, from: Status, to: Status)
    ensures RoleOfUser(Some(user)) == Client ==> (CanChangeStatus(user, from, to) <==> from.id == to.id)
    ensures IsStaff(RoleOfUser(Some(user))) ==> CanChangeStatus(user, from, to)
  {
  }

  /**
   * Destructive and administrative rights: deletion for managers and
   * operators (not quality managers), user management and statistics for
   * managers alone.
   */
  lemma AdministrativeRights(user: User)
    ensures CanDeleteRequest(user) <==> RoleOfUser(Some(user)) == Manager || RoleOfUser(Some(user)) == Operator
    ensures RoleOfUser(Some(user)) == QualityManager ==> !CanDeleteRequest(user) && CanAssignMaster(user)
    ensures CanManageUsers(user) ==> CanDeleteRequest(user) && CanAssignMaster(user) && CanViewStatistics(user)
  {
  }

  /** Commenting is the assigned specialist's privilege, and a specialist never creates requests. */
  lemma CommentRights(user: User, t: Ticket)
    ensures CanAddComment(user, t) <==> RoleOfUser(Some(user)) == Specialist && t.masterId == Some(user.id)
    ensures CanAddComment(user, t) ==> !CanCreateRequest(user) && !CanDeleteRequest(user)
  {
  }
}
