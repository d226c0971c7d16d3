/**
 * The two authorisation rules of the user API: who may act on a record
 * (`IsUserOrAdmin.has_object_permission`) and who may use the teacher-only
 * views (`IsTeacherOrAdmin.has_permission`).
 */
module Permissions {
  /** The user a request is made by: the anonymous user, or an account with
      its primary key, its staff flag and its `user_type`. */
  datatype Principal = Anonymous | Account(id: int, isStaff: bool, userType: string)

  /** A record checked for ownership. It has a `user` field, which may be
      empty, or it has none; a record without one may itself be an account
      (a `User` row) or something else. */
  datatype Target =
    | OwnedBy(user: Principal)
    | NullUser
    | UserRow(account: Principal)
    | OtherRecord

  const Teacher: string := "teacher"

  /** `request.user.is_staff`; the anonymous user is never staff. */
  predicate IsStaff(p: Principal)
  {
    p.Account? && p.isStaff
  }

  /** `request.user.is_authenticated`: true of every account. */
  predicate IsAuthenticated(p: Principal)
  {
    p.Account?
  }

  /** Python `==` between users: accounts compare by primary key, and the
      anonymous user equals only the anonymous user. */
  predicate SameUser(a: Principal, b: Principal)
  {
    (a.Anonymous? && b.Anonymous?) || (a.Account? && b.Account? && a.id == b.id)
  }

  /** The record is `p`'s: its `user` is `p`, or, having no `user` field, it
      is `p`'s own account. An empty `user` (`None`) belongs to nobody. */
  predicate BelongsTo(obj: Target, p: Principal)
  {
    match obj
    case OwnedBy(u) => SameUser(u, p)
    case NullUser => false
    case UserRow(u) => SameUser(u, p)
    case OtherRecord => false
  }

  /** `IsUserOrAdmin.has_object_permission`. */
  function HasObjectPermission(requester: Principal, obj: Target): (allowed: bool)
    ensures allowed <==> IsStaff(requester) || BelongsTo(obj, requester)
  {
    if IsStaff(requester) then true
    else if obj.OwnedBy? || obj.NullUser? then obj.OwnedBy? && SameUser(obj.user, requester)
    else obj.UserRow? && SameUser(obj.account, requester)
  }

  /** `IsTeacherOrAdmin.has_permission`. */
  function HasPermission(requester: Principal): (allowed: bool)
    ensures allowed <==> IsStaff(requester) || (requester.Account? && requester.userType == Teacher)
    ensures requester.Anonymous? ==> !allowed
  {
    IsStaff(requester) || (IsAuthenticated(requester) && requester.userType == Teacher)
  }

  /** Staff may act on any record and use any teacher view. */
  lemma StaffAlwaysAllowed(requester: Principal, obj: Target)
    requires IsStaff(requester)
    ensures HasObjectPermission(requester, obj) && HasPermission(requester)
  {
  }

  /** Apart from staff, at most one account may act on a given record: the
      one owning it. Two non-staff requesters both allowed are the same user. */
  lemma OneOwnerPerRecord(a: Principal, b: Principal, obj: Target)
    requires !IsStaff(a) && !IsStaff(b)
    requires HasObjectPermission(a, obj) && HasObjectPermission(b, obj)
    ensures SameUser(a, b)
  {
  }

  /** A record whose `user` is empty is open to staff only. */
  lemma UnownedIsStaffOnly(requester: Principal)
    ensures HasObjectPermission(requester, NullUser) <==> IsStaff(requester)
  {
  }

  /** A non-staff account is a teacher for the permission exactly when its
      type is `teacher`: students and anonymous requests are refused. */
  lemma NonStaffTeacherRule(requester: Principal)
    requires !IsStaff(requester)
    ensures HasPermission(requester) <==> requester.Account? && requester.userType == Teacher
  {
  }
}
