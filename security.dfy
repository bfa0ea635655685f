/** The policy data the authorization code reads: the role enumeration of the
    database schema and the entries of the section table. Both tables' contents
    live outside the modelled files, so they are parameters everywhere. */
module Security {

  /** The user role stored in the session token. The schema's enumeration is
      not part of this model; the three values below are the ones the code
      names, and `OtherRole` stands for any further value of the enumeration. */
  datatype Role = Tandeem | Customer | Employee | OtherRole(name: string)

  /** One entry of the section table: a named page prefix, the roles allowed
      on it and whether the sidebar lists it. The icon is not modelled. */
  datatype Section = Section(
    name: string,
    href: string,
    authorizedRoles: seq<Role>,
    showInSidebar: bool)

}
