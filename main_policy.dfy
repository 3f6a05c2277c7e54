/**
 * The older copy of the access policy kept in the web layer. It predates
 * the quality-manager role, so that role falls through to the default
 * and is denied.
 */
module MainPolicy {
  import opened Wrappers
  import opened Domain
  import Rbac

  /** The web layer's `user_can_view_request`. */
  function CanViewRequest(user: User, t: Ticket): (r: bool)
    ensures RoleOfUser(Some(user)).Unknown? || RoleOfUser(Some(user)) == QualityManager ==> !r
    ensures RoleOfUser(Some(user)) in {Manager, Operator} ==> r
    ensures RoleOfUser(Some(user)) == Specialist ==> (r <==> t.masterId == Some(user.id))
    ensures RoleOfUser(Some(user)) == Client ==> (r <==> t.clientId == user.id)
  {
    match RoleOfUser(Some(user))
    case Manager | Operator => true
    case Specialist => t.masterId == Some(user.id)
    case Client => t.clientId == user.id
    case QualityManager | Unknown(_) => false
  }

  /** The web layer's `user_can_edit_request`. */
  function CanEditRequest(user: User, t: Ticket): (r: bool)
    ensures RoleOfUser(Some(user)).Unknown? || RoleOfUser(Some(user)) == QualityManager ==> !r
    ensures r ==> CanViewRequest(user, t)
    ensures RoleOfUser(Some(user)) in {Manager, Operator} ==> r
    ensures RoleOfUser(Some(user)) == Specialist ==> (r <==> t.masterId == Some(user.id))
    ensures RoleOfUser(Some(user)) == Client ==> (r <==> t.clientId == user.id && !t.statusIsFinal)
  {
    match RoleOfUser(Some(user))
    case Manager | Operator => true
    case Specialist => t.masterId == Some(user.id)
    case Client => t.clientId == user.id && !t.statusIsFinal
    case QualityManager | Unknown(_) => false
  }

  /** The web layer's `user_can_delete_request`. */
  function CanDeleteRequest(user: User): (r: bool)
    ensures r ==> RoleOfUser(Some(user)) in {Manager, Operator}
  {
    RoleName(Some(user)) in {ManagerName, OperatorName}
  }

  /** The web layer's `user_can_add_comment`. */
  function CanAddComment(user: User, t: Ticket): (r: bool)
    ensures r ==> CanEditRequest(user, t)
  {
    RoleName(Some(user)) == SpecialistName && t.masterId == Some(user.id)
  }

  /** The role gate the request form applies before creating a request: clients, operators and managers. */
  function CanCreateRequest(user: User): (r: bool)
    ensures r <==> RoleOfUser(Some(user)) in {Client, Operator, Manager}
  {
    RoleName(Some(user)) in {ClientName, OperatorName, ManagerName}
  }

  /** Only managers and operators view and edit every request here. */
  lemma UnconditionalRights(user: User)
    ensures (forall t :: CanViewRequest(user, t)) <==> RoleOfUser(Some(user)) in {Manager, Operator}
    ensures (forall t :: CanEditRequest(user, t)) <==> RoleOfUser(Some(user)) in {Manager, Operator}
  {
    var role := RoleOfUser(Some(user));
    var notMine := Ticket(user.id + 1, None, 0, true);
    if role !in {Manager, Operator} {
      assert !CanViewRequest(user, notMine);
      assert !CanEditRequest(user, notMine);
    }
  }

  /** On every role but the quality manager the two copies of the policy agree. */
  lemma AgreesWithRbacExceptQualityManager(user: User, t: Ticket)
    requires RoleOfUser(Some(user)) != QualityManager
    ensures CanViewRequest(user, t) == Rbac.CanViewRequest(user, t)
    ensures CanEditRequest(user, t) == Rbac.CanEditRequest(user, t)
    ensures CanDeleteRequest(user) == Rbac.CanDeleteRequest(user)
    ensures CanAddComment(user, t) == Rbac.CanAddComment(user, t)
    ensures CanCreateRequest(user) == Rbac.CanCreateRequest(user)
  {
  }

  /** A quality manager may view, edit and create under the policy module but not here; neither copy lets them delete or comment. */
  lemma QualityManagerDiverges(user: User, t: Ticket)
    requires RoleOfUser(Some(user)) == QualityManager
    ensures Rbac.CanViewRequest(user, t) && !CanViewRequest(user, t)
    ensures Rbac.CanEditRequest(user, t) && !CanEditRequest(user, t)
    ensures Rbac.CanCreateRequest(user) && !CanCreateRequest(user)
    ensures !Rbac.CanDeleteRequest(user) && !CanDeleteRequest(user)
    ensures !Rbac.CanAddComment(user, t) && !CanAddComment(user, t)
  {
  }
}
