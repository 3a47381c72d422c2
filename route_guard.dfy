/**
 * `RouteGuard`: once the user and the role are loaded it checks the
 * session, sends signed-out visitors to the login page and visitors
 * without the required role home, and otherwise lets the children render.
 */
module RouteGuard {
  import opened Wrappers

  /** The `requiredRole` prop: absent, one role, or a list of roles. */
  datatype RequiredRole = NoRequirement | Exactly(role: string) | AnyOf(roles: seq<string>)

  /** `fetchAuthSession()`: threw, or a session with or without tokens. */
  datatype SessionOutcome = SessionThrew | Session(hasTokens: bool)

  /** What the component draws. */
  datatype View = Spinner | Children | Nothing

  /** The role check: membership for a list, equality for one role; a
   *  user without a role passes neither. */
  predicate HasRequiredRole(required: RequiredRole, role: Option<string>)
    requires !required.NoRequirement?
  {
    match required
    case Exactly(r) => role == Some(r)
    case AnyOf(rs) => role.Some? && role.value in rs
  }

  /** The login address, `${redirectTo}?redirect=${currentPath}`, with
   *  `redirectTo` defaulting to "/login" when the prop is absent. */
  function LoginTarget(redirectTo: Option<string>, currentPath: string): (r: string)
    ensures redirectTo.None? ==> r == "/login?redirect=" + currentPath
    ensures redirectTo.Some? ==> r == redirectTo.value + "?redirect=" + currentPath
  {
    redirectTo.GetOr("/login") + "?redirect=" + currentPath
  }

  class Guard {
    const requiredRole: RequiredRole
    const redirectTo: Option<string>
    var authorized: bool

    constructor(requiredRole: RequiredRole, redirectTo: Option<string>)
      ensures this.requiredRole == requiredRole && this.redirectTo == redirectTo
      ensures !authorized
    {
      this.requiredRole := requiredRole;
      this.redirectTo := redirectTo;
      authorized := false;
    }

    /** The render: the spinner while anything loads, otherwise the
     *  children exactly when authorized. */
    function Render(authLoading: bool, roleLoading: bool): (v: View)
      reads this
      ensures v == Spinner <==> authLoading || roleLoading
      ensures v == Children <==> !authLoading && !roleLoading && authorized
    {
      if authLoading || roleLoading then Spinner
      else if authorized then Children
      else Nothing
    }

    /** The effect with `checkAuthorization`. Nothing happens while loading.
     *  A session that throws clears the flag. Without a user or tokens the
     *  visitor is sent to the login target; with a required role the
     *  visitor is sent home unless the role check passes; only a visitor
     *  who passes both is authorized. The two redirecting branches leave
     *  the flag as it was. `navigation` is the `router.push` argument. */
    method Check(authLoading: bool, roleLoading: bool, user: bool, role: Option<string>,
                 session: SessionOutcome, currentPath: string) returns (navigation: Option<string>)
      modifies this
      ensures authLoading || roleLoading ==> navigation.None? && authorized == old(authorized)
      ensures !authLoading && !roleLoading && session.SessionThrew? ==> navigation.None? && !authorized
      ensures !authLoading && !roleLoading && session.Session? && (!user || !session.hasTokens) ==>
        navigation == Some(LoginTarget(redirectTo, currentPath)) && authorized == old(authorized)
      ensures !authLoading && !roleLoading && session.Session? && user && session.hasTokens ==>
        if requiredRole.NoRequirement? || HasRequiredRole(requiredRole, role) then
          navigation.None? && authorized
        else
          navigation == Some("/") && authorized == old(authorized)
    {
      navigation := None;
      if authLoading || roleLoading {
        return;
      }
      if session.SessionThrew? {
        authorized := false;
        return;
      }
      if !user || !session.hasTokens {
        navigation := Some(LoginTarget(redirectTo, currentPath));
        return;
      }
      if !requiredRole.NoRequirement? && !HasRequiredRole(requiredRole, role) {
        navigation := Some("/");
        return;
      }
      authorized := true;
    }
  }

  /** An empty role list turns every visitor away. */
  lemma EmptyListRejectsAll(role: Option<string>)
    ensures !HasRequiredRole(AnyOf([]), role)
  {
  }

  /** A single role is the one-element list. */
  lemma ExactlyIsSingleton(r: string, role: Option<string>)
    ensures HasRequiredRole(Exactly(r), role) <==> HasRequiredRole(AnyOf([r]), role)
  {
  }
}
