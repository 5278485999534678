// client/src/routes/RoleGuard.jsx: the route guard that lets a signed-in
// user through only when their role is on the route's allow list.
module RoleGuard {
  import opened Common
  import opened Text

  /** What the guard renders. */
  datatype Outcome = Nothing | Redirect(path: string) | Children

  /** The signed-in user as the auth context holds it; the role may be missing. */
  datatype SessionUser = SessionUser(role: Option<string>)

  /** `(x || "")`: a missing string counts as empty. */
  function OrEmpty(s: Option<string>): (r: string)
    ensures s.None? ==> r == ""
    ensures s.Some? ==> r == s.value
  {
    if s.None? then "" else s.value
  }

  /** Whether `role` matches some entry of `allow`, both lowercased. */
  predicate Allows(allow: seq<Option<string>>, role: Option<string>)
  {
    exists i :: 0 <= i < |allow| && Lower(OrEmpty(allow[i])) == Lower(OrEmpty(role))
  }

  /** RoleGuard: nothing while loading, the login page without a user, the
      home page for a role not on the list, the children otherwise. */
  function Guard(loading: bool, user: Option<SessionUser>, allow: seq<Option<string>>): (o: Outcome)
    ensures loading ==> o == Nothing
    ensures !loading && user.None? ==> o == Redirect("/login")
    ensures !loading && user.Some? ==> (o == Children <==> Allows(allow, user.value.role))
    ensures !loading && user.Some? && !Allows(allow, user.value.role) ==> o == Redirect("/")
  {
    if loading then Nothing
    else if user.None? then Redirect("/login")
    else
      var role := Lower(OrEmpty(user.value.role));
      var allowed := seq(|allow|, i requires 0 <= i < |allow| => Lower(OrEmpty(allow[i])));
      assert forall i :: 0 <= i < |allow| ==> allowed[i] == Lower(OrEmpty(allow[i]));
      if role !in allowed then Redirect("/") else Children
  }

  /** An empty allow list lets no signed-in user through. */
  lemma EmptyAllowRedirects(user: SessionUser)
    ensures Guard(false, Some(user), []) == Redirect("/")
  {
  }

  /** The comparison ignores case: lowercasing the user's role changes
      nothing. */
  lemma GuardIgnoresCase(loading: bool, role: string, allow: seq<Option<string>>)
    ensures Guard(loading, Some(SessionUser(Some(Lower(role)))), allow) == Guard(loading, Some(SessionUser(Some(role))), allow)
  {
    LowerIdempotent(role);
  }

  /** A missing role is the empty role: it passes exactly when the list
      holds an empty or missing entry. */
  lemma MissingRoleIsEmpty(allow: seq<Option<string>>)
    ensures Guard(false, Some(SessionUser(None)), allow) == Guard(false, Some(SessionUser(Some(""))), allow)
    ensures Guard(false, Some(SessionUser(None)), allow) == Children <==>
              exists i :: 0 <= i < |allow| && OrEmpty(allow[i]) == ""
  {
    assert Lower("") == "";
    forall i | 0 <= i < |allow| ensures Lower(OrEmpty(allow[i])) == "" <==> OrEmpty(allow[i]) == "" {
    }
  }
}
