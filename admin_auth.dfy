/** The `useAdminAuth` hook: its `isAuthenticated` state and the effect
    that sets it and redirects once the session check is over. The session
    is an input. */
module AdminAuth {

  import opened Wrappers
  import AdminLayout

  /** The new `isAuthenticated` and the redirect of one run of the effect,
      from the current value. */
  function Effect(isPending: bool, hasUser: bool, current: bool): (bool, Option<string>) {
    if isPending then (current, None)
    else if hasUser then (true, None)
    else (false, Some(AdminLayout.LoginPath))
  }

  /** Once the check is over the state says whether there is a user, and
      the hook redirects exactly where and when the admin layout does; a
      second run changes nothing more. */
  lemma EffectSpec(isPending: bool, hasUser: bool, current: bool)
    ensures var (now, redirect) := Effect(isPending, hasUser, current);
      && (isPending ==> now == current)
      && (!isPending ==> now == hasUser)
      && redirect == AdminLayout.LayoutRedirect(isPending, hasUser)
      && Effect(isPending, hasUser, now) == (now, redirect)
  {
  }

  class AdminAuthHook {
    var isAuthenticated: bool

    constructor()
      ensures !isAuthenticated
    {
      isAuthenticated := false;
    }

    /** One run of the effect for the current session state. */
    method RunEffect(isPending: bool, hasUser: bool) returns (redirect: Option<string>)
      modifies this`isAuthenticated
      ensures (isAuthenticated, redirect) == Effect(isPending, hasUser, old(isAuthenticated))
    {
      redirect := None;
      if !isPending {
        if hasUser {
          isAuthenticated := true;
        } else {
          isAuthenticated := false;
          redirect := Some(AdminLayout.LoginPath);
        }
      }
    }
  }
}
