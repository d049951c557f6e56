/** The minimal client-side router (src/lib/react-router-dom.tsx). `BrowserRouter` holds the
    current location and drives the browser history, modelled here as the sequence of its
    entries and the position of the current one. `Route` and `NavLink` are pure tests on the
    current pathname. */
module Router {
  import opened Common

  datatype Location = Location(pathname: string, search: string, hash: string)

  /** The pathname `navigate` goes to: `to` itself when it starts with '/', otherwise
      `to` with '/' in front. */
  function Normalize(to: string): (r: string)
    ensures |r| >= 1 && r[0] == '/'
    ensures r == to || r == "/" + to
  {
    if "/" <= to then to else "/" + to
  }

  /** A rooted pathname is left alone, so normalizing twice is normalizing once. */
  lemma NormalizeRooted(to: string)
    ensures "/" <= to <==> Normalize(to) == to
    ensures Normalize(Normalize(to)) == Normalize(to)
  {
    if Normalize(to) == to {
      assert to[0] == '/';
      assert to[..1] == "/";
    }
  }

  /** Whether `<Route path={path}>` renders at `current` (lines 71-72): an equal path,
      the root path at an empty pathname, or a non-empty path that is a character prefix
      of the pathname. An absent path is `None`. */
  predicate RouteMatches(path: Option<string>, current: string)
    ensures RouteMatches(path, current) ==>
              path.Some? && (path.value <= current || (path.value == "/" && current == ""))
  {
    path == Some(current)
    || (path == Some("/") && current == "")
    || (path.Some? && path.value != "" && path.value <= current)
  }

  /** What the test amounts to: a route without a path never renders; an empty path renders
      only at the empty pathname; any other path renders exactly at the pathnames it is a
      prefix of, and the root path also at the empty pathname. */
  lemma RouteMatchesIff(path: Option<string>, current: string)
    ensures path.None? ==> !RouteMatches(path, current)
    ensures path == Some("") ==> (RouteMatches(path, current) <==> current == "")
    ensures path.Some? && path.value != "" ==>
              (RouteMatches(path, current) <==> path.value <= current || (path.value == "/" && current == ""))
  {
  }

  /** No segment boundary is checked: '/fin' renders at '/financeiro', and the root route
      renders at every pathname `navigate` can produce. */
  lemma RoutePrefixExamples(to: string)
    ensures RouteMatches(Some("/fin"), "/financeiro")
    ensures RouteMatches(Some("/"), Normalize(to))
  {
    assert "/fin" <= "/financeiro";
    var r := Normalize(to);
    assert r[..1] == "/";
  }

  /** `isActive` of `<NavLink to={to}>`: the pathname equals `to` exactly (`end` plays no part). */
  predicate NavLinkActive(location: Location, to: string)
    ensures NavLinkActive(location, to) ==> RouteMatches(Some(to), location.pathname)
  {
    location.pathname == to
  }

  /** A nested page activates its section's route but not its section's link: at
      '/fitness/treinos' the route '/fitness' renders while the link '/fitness' is inactive. */
  lemma NestedPageExample(search: string, hash: string)
    ensures RouteMatches(Some("/fitness"), "/fitness/treinos")
    ensures !NavLinkActive(Location("/fitness/treinos", search, hash), "/fitness")
  {
    assert "/fitness" <= "/fitness/treinos";
  }

  /** After following a link, the link is active exactly when its target was already rooted:
      a relative `to` is navigated to as '/' + `to`, which no longer equals `to`. */
  lemma NavLinkActiveAfterNavigate(to: string, search: string, hash: string)
    ensures NavLinkActive(Location(Normalize(to), "", ""), to) <==> "/" <= to
  {
    NormalizeRooted(to);
  }

  class BrowserRouter {
    var location: Location
    /** The session history's entries. */
    var entries: seq<Location>
    /** The position of the current history entry. */
    var index: nat

    ghost predicate Valid()
      reads this
    {
      index < |entries|
    }

    /** Mounting: the location is the browser's, with '/' for an empty pathname (lines 20-24);
        the history holds the page's one entry. */
    constructor (browser: Location)
      ensures Valid()
      ensures location == Location(if browser.pathname == "" then "/" else browser.pathname, browser.search, browser.hash)
      ensures entries == [browser] && index == 0
    {
      location := Location(if browser.pathname == "" then "/" else browser.pathname, browser.search, browser.hash);
      entries := [browser];
      index := 0;
    }

    /** `navigate(to, { replace })` (lines 26-38): the new location has the normalized
        pathname and no search or hash; `replaceState` overwrites the current entry,
        `pushState` drops the entries after it and appends one. Earlier entries stay. */
    method Navigate(to: string, replace: bool)
      requires Valid()
      modifies this`location, this`entries, this`index
      ensures Valid()
      ensures location == Location(Normalize(to), "", "")
      ensures replace ==> entries == old(entries)[old(index) := location] && index == old(index)
      ensures !replace ==> entries == old(entries)[..old(index) + 1] + [location] && index == old(index) + 1
      ensures entries[..old(index)] == old(entries)[..old(index)]
    {
      var newPath := Normalize(to);
      var next := Location(newPath, "", "");
      ghost var before := entries;
      if replace {
        entries := entries[index := next];
        assert entries[..index] == before[..index];
      } else {
        entries := entries[..index + 1] + [next];
        assert entries[..index] == before[..index];
        index := index + 1;
      }
      location := next;
    }

    /** The browser's back or forward button moved to entry `target`; the `popstate`
        handler copies that entry's location (lines 42-48). */
    method PopState(target: nat)
      requires Valid() && target < |entries|
      modifies this`location, this`index
      ensures Valid()
      ensures location == entries[target] && index == target
    {
      index := target;
      location := entries[target];
    }

    /** Clicking a `NavLink` (lines 104-107), or rendering `<Navigate to>` (lines 80-86):
        a push-navigation to `to`. */
    method FollowLink(to: string)
      requires Valid()
      modifies this`location, this`entries, this`index
      ensures Valid()
      ensures location == Location(Normalize(to), "", "")
      ensures entries == old(entries)[..old(index) + 1] + [location] && index == old(index) + 1
    {
      Navigate(to, false);
    }
  }

  /** Navigating then going back returns to the previous location's history entry, and
      a replace keeps the history's length. */
  method BackAfterPush(router: BrowserRouter, to: string)
    requires router.Valid()
    modifies router
    ensures router.Valid()
    ensures router.location == Location(Normalize(to), "", "")
    ensures router.entries == old(router.entries)[..old(router.index)] + [router.location, router.location]
    ensures router.index == old(router.index)
  {
    var before := router.entries[router.index];
    var n := |router.entries|;
    router.Navigate(to, true);
    assert |router.entries| == n;
    var at := router.index;
    router.Navigate(to, false);
    assert router.entries[at] == Location(Normalize(to), "", "");
    router.PopState(router.index - 1);
    assert router.location == Location(Normalize(to), "", "");
  }
}
