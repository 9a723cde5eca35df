/** The conditional authentication guard: given whether authentication is
    still loading, the current path and whether a user is signed in, it shows
    a spinner, the page itself, or the login screen. */
module AuthGuard {

  datatype View = Spinner | Children | LoginScreen

  /** Pages that do not require authentication. */
  const PublicPages: seq<string> := ["/", "/privacy-policy", "/terms-of-service"]

  /** `publicPages.includes(pathname)`: exact membership. */
  predicate IsPublic(pathname: string) {
    exists i :: 0 <= i < |PublicPages| && PublicPages[i] == pathname
  }

  function Decide(loading: bool, pathname: string, signedIn: bool): (v: View)
    ensures v == Spinner <==> loading
    ensures v == LoginScreen <==>
      (!loading && !signedIn && pathname !in {"/", "/privacy-policy", "/terms-of-service"})
    ensures v == Children <==> !loading && (signedIn || pathname in {"/", "/privacy-policy", "/terms-of-service"})
  {
    assert PublicPages[0] == "/" && PublicPages[1] == "/privacy-policy" && PublicPages[2] == "/terms-of-service";
    if loading then Spinner
    else if IsPublic(pathname) then Children
    else if !signedIn then LoginScreen
    else Children
  }

  /** A signed-in user always reaches the page once loading is over; the
      public pages are reached without one; and the check is by exact path, so
      a trailing slash makes a public page private. */
  lemma GuardFacts(pathname: string, signedIn: bool)
    ensures Decide(false, pathname, true) == Children
    ensures Decide(true, pathname, signedIn) == Spinner
    ensures Decide(false, "/privacy-policy", signedIn) == Children
    ensures Decide(false, "/privacy-policy/", false) == LoginScreen
    ensures Decide(false, "/terms-of-service/", false) == LoginScreen
  {
    assert "/privacy-policy/" != "/privacy-policy";
    assert "/terms-of-service/" != "/terms-of-service";
  }
}
