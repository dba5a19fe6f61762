/** `IsProjectMemberOrReadOnly.has_object_permission`: read-only methods are
    always allowed on a task; any other method needs the caller to be the
    creator of the task's project or one of its members. */
module TaskPermission {

  /** `permissions.SAFE_METHODS`. */
  const SafeMethods: set<string> := {"GET", "HEAD", "OPTIONS"}

  /** The parts of `obj.project` the check reads. `Project` declares no
      `members`; the set here stands for the membership the check expects. */
  datatype ProjectAccess = ProjectAccess(createdBy: int, members: set<int>)

  /** The check as evidently intended: `created_by == user or user in members`,
      the creator test first. */
  predicate HasObjectPermission(verb: string, user: int, project: ProjectAccess)
  {
    verb in SafeMethods || project.createdBy == user || user in project.members
  }

  /** Safe methods are allowed whatever the user and the object. */
  lemma SafeMethodsAllowed(verb: string, user: int, project: ProjectAccess)
    requires verb in {"GET", "HEAD", "OPTIONS"}
    ensures HasObjectPermission(verb, user, project)
  {
  }

  /** For any other method the creator is allowed, member or not. */
  lemma CreatorAllowed(verb: string, project: ProjectAccess)
    ensures HasObjectPermission(verb, project.createdBy, project)
  {
  }

  /** For any other method a non-creator is allowed exactly when a member. */
  lemma NonCreatorNeedsMembership(verb: string, user: int, project: ProjectAccess)
    requires verb !in SafeMethods && user != project.createdBy
    ensures HasObjectPermission(verb, user, project) <==> user in project.members
  {
  }

  /** The method names are compared exactly: a lower-case `get` is not safe. */
  lemma MethodNamesCaseSensitive(user: int)
    ensures !HasObjectPermission("get", user, ProjectAccess(user + 1, {}))
  {
  }

  // ---------------------------------------------------------------------
  // The check as written

  /** The result of evaluating the check's expression. */
  datatype Evaluation = Value(allowed: bool) | RaisedAttributeError

  /** As written, the `or` short-circuits on the creator, and otherwise reads
      `obj.project.members`, an attribute `Project` does not have. */
  function HasObjectPermissionAsWritten(verb: string, user: int, createdBy: int): (r: Evaluation)
    ensures r.Value? <==> verb in SafeMethods || createdBy == user
    ensures r.Value? ==> r.allowed
  {
    if verb in SafeMethods then Value(true)
    else if createdBy == user then Value(true)
    else RaisedAttributeError
  }

  /** Every call for an unsafe method by a non-creator raises instead of
      being decided. */
  lemma NonCreatorWriteRaises(verb: string, user: int, createdBy: int)
    requires verb !in SafeMethods && user != createdBy
    ensures HasObjectPermissionAsWritten(verb, user, createdBy) == RaisedAttributeError
  {
  }

  /** A concrete case: the check called directly for `PUT` by user 2 on a
      task of a project user 1 created. */
  lemma PutByNonCreatorRaises()
    ensures HasObjectPermissionAsWritten("PUT", 2, 1) == RaisedAttributeError
    ensures HasObjectPermission("PUT", 2, ProjectAccess(1, {2}))
  {
  }

  /** Wherever the written check reaches a decision, the intended check makes
      the same one, whatever the member set. */
  lemma AsWrittenAgreesWhereDecided(verb: string, user: int, project: ProjectAccess)
    requires HasObjectPermissionAsWritten(verb, user, project.createdBy).Value?
    ensures HasObjectPermission(verb, user, project)
        == HasObjectPermissionAsWritten(verb, user, project.createdBy).allowed
  {
  }
}
