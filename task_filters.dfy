/** The `get_user_role` template filter. */
module TaskFilters {
  import opened Wrappers
  import opened Domain
  import opened Permissions

  /**
   * The role label shown in templates: "N/A" without a user, "Desarrollador" for a
   * superuser, "Administrador" for a member of that group wherever it sits in the list,
   * else the first group's name, else "Sin Rol".
   */
  function RoleLabel(user: Option<User>): string {
    match user
    case None => "N/A"
    case Some(u) =>
      if u.isSuperuser then "Desarrollador"
      else if InGroup(u, ADMIN_GROUP) then ADMIN_GROUP
      else if |u.groups| > 0 then u.groups[0]
      else "Sin Rol"
  }

  lemma MissingUserIsNA()
    ensures RoleLabel(None) == "N/A"
  {
  }

  /** A superuser is "Desarrollador" even when also in "Administrador". */
  lemma SuperuserIsDeveloper(u: User)
    requires u.isSuperuser
    ensures RoleLabel(Some(u)) == "Desarrollador"
  {
  }

  /** A non-superuser in "Administrador" is labelled so whatever the order of their groups. */
  lemma AdminLabelIgnoresOrder(u: User, before: seq<string>, after: seq<string>)
    requires !u.isSuperuser && u.groups == before + [ADMIN_GROUP] + after
    ensures RoleLabel(Some(u)) == ADMIN_GROUP
  {
    assert u.groups[|before|] == ADMIN_GROUP;
  }

  /** Outside the superuser and "Administrador" cases, the filter and `permissions.get_user_role` agree. */
  lemma FilterAgreesWithUserRole(u: User)
    requires !u.isSuperuser && !InGroup(u, ADMIN_GROUP)
    ensures RoleLabel(Some(u)) == UserRole(u)
  {
  }

  /**
   * The two variants disagree for a non-superuser whose first group is not "Administrador"
   * but who is in it: the filter says "Administrador", `get_user_role` names the first group.
   */
  lemma RoleVariantsDisagree()
    ensures var u := User(7, "v", false, [SALES_GROUP, ADMIN_GROUP]);
      RoleLabel(Some(u)) == ADMIN_GROUP && UserRole(u) == SALES_GROUP
  {
  }
}
