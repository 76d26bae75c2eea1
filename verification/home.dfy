/** The home page: it only redirects, by the caller's role. */
module Home {
  import opened Base

  /** The redirect target of the home page. Every branch ends in a redirect,
      so exactly one target is chosen. */
  function Route(caller: Option<Caller>): (target: string)
    ensures caller.None? ==> target == "/login"
    ensures caller.Some? && caller.value.role in {"parent", "teacher", "admin"} ==>
              target == "/" + caller.value.role
    ensures caller.Some? && caller.value.role !in {"parent", "teacher", "admin"} ==>
              target == "/login"
  {
    match caller
    case None => "/login"
    case Some(c) =>
      if c.role == "parent" then "/parent"
      else if c.role == "teacher" then "/teacher"
      else if c.role == "admin" then "/admin"
      else "/login"
  }

  /** The home page sends a caller to one of four pages, and to a role's own
      page exactly when the caller has that role. */
  lemma RouteTargets(caller: Option<Caller>)
    ensures Route(caller) in {"/login", "/parent", "/teacher", "/admin"}
    ensures Route(caller) == "/teacher" <==> caller.Some? && caller.value.role == "teacher"
    ensures Route(caller) == "/parent" <==> caller.Some? && caller.value.role == "parent"
    ensures Route(caller) == "/admin" <==> caller.Some? && caller.value.role == "admin"
  {
  }
}
