/**
 * Horizontal swipe-to-switch-tab navigation (src/hooks/use-swipe-navigation.ts):
 * a one-slot touch recorder, a swipe classifier with fixed thresholds, the
 * path-to-tab lookup and the clamped step to the neighbouring tab.
 *
 * The clock (`Date.now()`), the touch points and the router's current path are
 * parameters; a navigation is returned as the request handed to `navigate`.
 */
module SwipeNavigation {
  import opened Wrappers

  /** The tab keys (the string literals `'dashboard'`, `'agentHub'`, ...). */
  datatype TabKey = Dashboard | AgentHub | Chat | Skills | Settings

  /** The tab keys, in swipe order. */
  const TAB_ORDER: seq<TabKey> := [Dashboard, AgentHub, Chat, Skills, Settings]

  /** A swipe must travel more than this horizontally (px) ... */
  const MIN_DX: int := 60
  /** ... less than this vertically (px) ... */
  const MAX_DY: int := 30
  /** ... within less than this many milliseconds. */
  const MAX_DT: int := 500

  /** The tab the user is on, or -1 when the path belongs to none. */
  function FindCurrentTabIndex(pathname: string): (r: int)
    ensures -1 <= r < |TAB_ORDER|
  {
    if "/dashboard" <= pathname then 0
    else if "/agent-swarm" <= pathname || "/agents" <= pathname then 1
    else if "/chat" <= pathname || pathname == "/new" || pathname == "/" then 2
    else if "/skills" <= pathname then 3
    else if "/settings" <= pathname then 4
    else -1
  }

  // ---------------------------------------------------------------------------
  // Excluded touch targets

  /** A DOM element, as far as a CSS selector of tags and classes sees it. */
  datatype Node = Node(tag: string, classes: set<string>)

  /** An event target: something that is not an Element, or an element
      together with its ancestors, nearest first. */
  datatype EventTarget = NonElement | Element(node: Node, ancestors: seq<Node>)

  /** Matches `input, textarea, button, select, pre, code, .no-swipe`. */
  predicate IsExcluded(n: Node) {
    n.tag in {"input", "textarea", "button", "select", "pre", "code"} || "no-swipe" in n.classes
  }

  /** `closest`: the position of the nearest node of `chain` that matches. */
  function Closest(chain: seq<Node>): (r: Option<nat>)
    ensures r.None? <==> forall i :: 0 <= i < |chain| ==> !IsExcluded(chain[i])
    ensures r.Some? ==> r.value < |chain| && IsExcluded(chain[r.value])
    ensures r.Some? ==> forall i :: 0 <= i < r.value ==> !IsExcluded(chain[i])
  {
    if chain == [] then None
    else if IsExcluded(chain[0]) then Some(0)
    else match Closest(chain[1..]) {
      case None => None
      case Some(k) => Some(k + 1)
    }
  }

  /** Whether a touch that starts on `target` must not begin a swipe. */
  predicate ShouldIgnoreSwipeTarget(target: EventTarget) {
    match target {
      case NonElement => false
      case Element(node, ancestors) => Closest([node] + ancestors).Some?
    }
  }

  /** A target is ignored exactly when it is an element that is excluded
      itself or has an excluded ancestor. */
  lemma IgnoredIffExcludedOnPath(target: EventTarget)
    ensures ShouldIgnoreSwipeTarget(target) <==>
      target.Element? &&
      (IsExcluded(target.node) || exists i :: 0 <= i < |target.ancestors| && IsExcluded(target.ancestors[i]))
  {
    if target.Element? {
      var chain := [target.node] + target.ancestors;
      assert forall i :: 0 <= i < |target.ancestors| ==> chain[i + 1] == target.ancestors[i];
      if Closest(chain).Some? && !IsExcluded(target.node) {
        var k := Closest(chain).value;
        assert k > 0 && IsExcluded(target.ancestors[k - 1]);
      }
    }
  }

  // ---------------------------------------------------------------------------
  // Destinations

  /** What is handed to the router's `navigate`: a route template and its
      parameters. */
  datatype NavRequest = NavRequest(to: string, params: map<string, string>)

  /** Length of the parameter name at the start of `s` (up to the next '/'). */
  function ParamNameLength(s: string): (n: nat)
    ensures n <= |s|
    ensures forall i :: 0 <= i < n ==> s[i] != '/'
    ensures n < |s| ==> s[n] == '/'
  {
    if s == [] || s[0] == '/' then 0 else 1 + ParamNameLength(s[1..])
  }

  /** The path a route template stands for: every `$name` segment is replaced
      by `params[name]`; an unknown parameter is left as it is. */
  function Interpolate(template: string, params: map<string, string>): string
    decreases |template|
  {
    if template == [] then []
    else if template[0] == '$' then
      var n := ParamNameLength(template[1..]);
      var name := template[1..1 + n];
      (if name in params then params[name] else template[..1 + n]) + Interpolate(template[1 + n..], params)
    else
      [template[0]] + Interpolate(template[1..], params)
  }

  /** A template without parameters is its own path. */
  lemma {:induction false} InterpolatePlain(template: string, params: map<string, string>)
    requires forall i :: 0 <= i < |template| ==> template[i] != '$'
    ensures Interpolate(template, params) == template
  {
    if template != [] {
      InterpolatePlain(template[1..], params);
    }
  }

  /** The path `navigate` ends up on. */
  function Href(request: NavRequest): string {
    Interpolate(request.to, request.params)
  }

  /** The request issued for a tab key; the last case is the fall-through. */
  function DestinationOf(tab: TabKey): NavRequest {
    if tab == Dashboard then NavRequest("/dashboard", map[])
    else if tab == AgentHub then NavRequest("/agent-swarm", map[])
    else if tab == Chat then NavRequest("/chat/$sessionKey", map["sessionKey" := "main"])
    else if tab == Skills then NavRequest("/skills", map[])
    else NavRequest("/settings", map[])
  }

  /** A parameter-free prefix passes through in front of the rest. */
  lemma {:induction false} InterpolateAppend(plain: string, rest: string, params: map<string, string>)
    requires forall i :: 0 <= i < |plain| ==> plain[i] != '$'
    ensures Interpolate(plain + rest, params) == plain + Interpolate(rest, params)
  {
    if plain != [] {
      var t := plain + rest;
      assert t[0] == plain[0] && t[1..] == plain[1..] + rest;
      InterpolateAppend(plain[1..], rest, params);
      assert Interpolate(t, params) == [plain[0]] + Interpolate(t[1..], params);
      assert plain == [plain[0]] + plain[1..];
    } else {
      assert plain + rest == rest;
    }
  }

  lemma {:induction false} ParamNameLengthOf(name: string, rest: string)
    requires forall i :: 0 <= i < |name| ==> name[i] != '/'
    requires rest == [] || rest[0] == '/'
    ensures ParamNameLength(name + rest) == |name|
  {
    if name != [] {
      assert (name + rest)[1..] == name[1..] + rest;
      ParamNameLengthOf(name[1..], rest);
    }
  }

  /** A `$name` segment is replaced by the value of that parameter. */
  lemma InterpolateParam(name: string, rest: string, params: map<string, string>)
    requires forall i :: 0 <= i < |name| ==> name[i] != '/'
    requires rest == [] || rest[0] == '/'
    requires name in params
    ensures Interpolate("$" + name + rest, params) == params[name] + Interpolate(rest, params)
  {
    var t := "$" + name + rest;
    ParamNameLengthOf(name, rest);
    assert t[1..] == name + rest;
    assert t[1..1 + |name|] == name;
    assert t[1 + |name|..] == rest;
  }

  /** A template ending in one `$name` segment resolves to its prefix
      followed by the parameter's value. */
  lemma InterpolateLastParam(prefix: string, name: string, value: string)
    requires forall i :: 0 <= i < |prefix| ==> prefix[i] != '$'
    requires forall i :: 0 <= i < |name| ==> name[i] != '/'
    ensures Interpolate(prefix + "$" + name, map[name := value]) == prefix + value
  {
    var params := map[name := value];
    InterpolateParam(name, "", params);
    assert "$" + name + "" == "$" + name;
    assert Interpolate("", params) == "";
    InterpolateAppend(prefix, "$" + name, params);
    assert prefix + "$" + name == prefix + ("$" + name);
  }

  /** The chat tab's request resolves to the main session's chat. */
  lemma ChatHref()
    ensures Href(DestinationOf(Chat)) == "/chat/main"
  {
    InterpolateLastParam("/chat/", "sessionKey", "main");
    assert "/chat/" + "$" + "sessionKey" == "/chat/$sessionKey";
    assert "/chat/" + "main" == "/chat/main";
  }

  /** The path navigated to for each tab. */
  function TabPath(tab: TabKey): string {
    match tab
    case Dashboard => "/dashboard"
    case AgentHub => "/agent-swarm"
    case Chat => "/chat/main"
    case Skills => "/skills"
    case Settings => "/settings"
  }

  /** Each tab's request resolves to its path. */
  lemma DestinationPath(tab: TabKey)
    ensures Href(DestinationOf(tab)) == TabPath(tab)
  {
    match tab
    case Dashboard => InterpolatePlain("/dashboard", map[]);
    case AgentHub => InterpolatePlain("/agent-swarm", map[]);
    case Chat => ChatHref();
    case Skills => InterpolatePlain("/skills", map[]);
    case Settings => InterpolatePlain("/settings", map[]);
  }

  /** A path that disagrees with `prefix` at position k does not start with it. */
  lemma DiffersAt(prefix: string, p: string, k: nat)
    requires k < |prefix| && k < |p| && prefix[k] != p[k]
    ensures !(prefix <= p)
  {
  }

  /** Each tab's path is found on that tab. */
  lemma TabPathIsOnTab(i: nat)
    requires i < |TAB_ORDER|
    ensures FindCurrentTabIndex(TabPath(TAB_ORDER[i])) == i
  {
    if i == 1 {
      DiffersAt("/dashboard", "/agent-swarm", 1);
    } else if i == 2 {
      var p := "/chat/main";
      DiffersAt("/dashboard", p, 1);
      DiffersAt("/agent-swarm", p, 1);
      DiffersAt("/agents", p, 1);
    } else if i == 3 {
      var p := "/skills";
      DiffersAt("/dashboard", p, 1);
      DiffersAt("/agent-swarm", p, 1);
      DiffersAt("/agents", p, 1);
      DiffersAt("/chat", p, 1);
    } else if i == 4 {
      var p := "/settings";
      DiffersAt("/dashboard", p, 1);
      DiffersAt("/agent-swarm", p, 1);
      DiffersAt("/agents", p, 1);
      DiffersAt("/chat", p, 1);
      DiffersAt("/skills", p, 2);
    }
  }

  /** The destination of tab i leads back to tab i. */
  lemma DestinationRoundTrip(i: nat)
    requires i < |TAB_ORDER|
    ensures FindCurrentTabIndex(Href(DestinationOf(TAB_ORDER[i]))) == i
  {
    DestinationPath(TAB_ORDER[i]);
    TabPathIsOnTab(i);
  }

  // ---------------------------------------------------------------------------
  // Gesture classification

  /** A touch point in client coordinates. */
  datatype Point = Point(clientX: int, clientY: int)

  /** The pending touch-start record. */
  datatype TouchStart = TouchStart(x: int, y: int, at: int)

  /** Displacement and duration of a gesture. */
  datatype Gesture = Gesture(dx: int, dy: int, dt: int)

  function Measure(start: TouchStart, end: Point, now: int): (g: Gesture)
    ensures start.x + g.dx == end.clientX && start.y + g.dy == end.clientY && start.at + g.dt == now
  {
    Gesture(end.clientX - start.x, end.clientY - start.y, now - start.at)
  }

  function Abs(n: int): nat {
    if n < 0 then -n else n
  }

  /** A quick, mostly horizontal drag. */
  predicate IsQualifyingSwipe(g: Gesture) {
    !(Abs(g.dx) <= MIN_DX || Abs(g.dy) >= MAX_DY || g.dt >= MAX_DT)
  }

  /** Every threshold is strict: a gesture right on one of them is no swipe. */
  lemma ThresholdsAreStrict(g: Gesture)
    ensures IsQualifyingSwipe(g) <==> (g.dx > 60 || g.dx < -60) && -30 < g.dy < 30 && g.dt < 500
    ensures !IsQualifyingSwipe(Gesture(60, 0, 0)) && !IsQualifyingSwipe(Gesture(-60, 0, 0))
    ensures !IsQualifyingSwipe(Gesture(61, 30, 0)) && !IsQualifyingSwipe(Gesture(61, -30, 0))
    ensures !IsQualifyingSwipe(Gesture(61, 0, 500))
    ensures IsQualifyingSwipe(Gesture(-61, 29, 499))
  {
  }

  /** A leftward drag (dx < 0) moves to the next tab, any other to the
      previous one, clamped to the ends of TAB_ORDER. */
  function NextIndex(current: nat, dx: int): (next: nat)
    requires current < |TAB_ORDER|
    ensures next < |TAB_ORDER|
  {
    if dx < 0 then
      if current + 1 < |TAB_ORDER| - 1 then current + 1 else |TAB_ORDER| - 1
    else
      if current - 1 > 0 then current - 1 else 0
  }

  /** The step is to a neighbour, and it is no step exactly at an edge. */
  lemma NextIndexIsNeighbour(current: nat, dx: int)
    requires current < |TAB_ORDER|
    ensures NextIndex(current, dx) == current <==>
      (dx < 0 && current == |TAB_ORDER| - 1) || (dx >= 0 && current == 0)
    ensures NextIndex(current, dx) != current ==>
      NextIndex(current, dx) == if dx < 0 then current + 1 else current - 1
  {
  }

  /** What touch-start leaves in the slot. */
  function StartRecord(touch: Option<Point>, target: EventTarget, now: int): (r: Option<TouchStart>)
    ensures r.None? <==> touch.None? || ShouldIgnoreSwipeTarget(target)
    ensures r.Some? ==> r.value == TouchStart(touch.value.clientX, touch.value.clientY, now)
  {
    if touch.None? || ShouldIgnoreSwipeTarget(target) then None
    else Some(TouchStart(touch.value.clientX, touch.value.clientY, now))
  }

  /** What touch-end navigates to, given the slot it took. */
  function SwipeResult(start: Option<TouchStart>, touch: Option<Point>, now: int, pathname: string): (r: Option<NavRequest>)
    ensures r.Some? ==> start.Some? && touch.Some? && IsQualifyingSwipe(Measure(start.value, touch.value, now))
    ensures r.Some? ==> FindCurrentTabIndex(pathname) != -1
  {
    if start.None? || touch.None? then None
    else
      var g := Measure(start.value, touch.value, now);
      if !IsQualifyingSwipe(g) then None
      else
        var current := FindCurrentTabIndex(pathname);
        if current == -1 then None
        else
          var next := NextIndex(current, g.dx);
          if next == current then None
          else Some(DestinationOf(TAB_ORDER[next]))
  }

  /** A swipe lands on the tab next to the current one, in the direction of
      the drag; it navigates unless the drag is toward the edge it is on. */
  lemma SwipeLandsOnNeighbour(start: TouchStart, touch: Point, now: int, pathname: string)
    requires IsQualifyingSwipe(Measure(start, touch, now))
    requires FindCurrentTabIndex(pathname) != -1
    ensures var cur := FindCurrentTabIndex(pathname);
            var dx := touch.clientX - start.x;
            var r := SwipeResult(Some(start), Some(touch), now, pathname);
            (r.None? <==> (dx < 0 && cur == 4) || (dx > 0 && cur == 0)) &&
            (r.Some? ==> FindCurrentTabIndex(Href(r.value)) == if dx < 0 then cur + 1 else cur - 1) &&
            (r.Some? ==> r.value == DestinationOf(TAB_ORDER[if dx < 0 then cur + 1 else cur - 1]))
  {
    var cur := FindCurrentTabIndex(pathname);
    var dx := touch.clientX - start.x;
    NextIndexIsNeighbour(cur, dx);
    var next := NextIndex(cur, dx);
    if next != cur {
      DestinationRoundTrip(next);
    }
  }

  /** A touch begun on an excluded target never navigates, wherever it ends. */
  lemma IgnoredStartNeverNavigates(first: Option<Point>, target: EventTarget, startTime: int,
                                   last: Option<Point>, now: int, pathname: string)
    requires ShouldIgnoreSwipeTarget(target)
    ensures SwipeResult(StartRecord(first, target, startTime), last, now, pathname) == None
  {
  }

  /** A gesture off every tab route never navigates. */
  lemma UnknownRouteNeverNavigates(start: Option<TouchStart>, touch: Option<Point>, now: int, pathname: string)
    requires FindCurrentTabIndex(pathname) == -1
    ensures SwipeResult(start, touch, now, pathname) == None
  {
  }

  /** A right drag on the first tab (already at the edge), a drag with too
      much vertical travel and a slow drag do nothing. */
  lemma RejectedSwipesFromFirstTab()
    ensures SwipeResult(Some(TouchStart(100, 100, 0)), Some(Point(161, 100)), 100, "/dashboard") == None
    ensures SwipeResult(Some(TouchStart(100, 100, 0)), Some(Point(39, 140)), 100, "/dashboard") == None
    ensures SwipeResult(Some(TouchStart(100, 100, 0)), Some(Point(39, 100)), 600, "/dashboard") == None
  {
  }

  /** The hook's handlers around the `touchStartRef` slot. */
  class SwipeNavigator {
    var pending: Option<TouchStart>

    constructor ()
      ensures pending == None
    {
      pending := None;
    }

    /** `onTouchStart`: the last start wins; a missing touch point or an
        excluded target empties the slot. */
    method OnTouchStart(touch: Option<Point>, target: EventTarget, now: int)
      modifies this
      ensures pending == StartRecord(touch, target, now)
    {
      if touch.None? || ShouldIgnoreSwipeTarget(target) {
        pending := None;
        return;
      }
      pending := Some(TouchStart(touch.value.clientX, touch.value.clientY, now));
    }

    /** `onTouchEnd`: takes and clears the slot, then navigates at most once. */
    method OnTouchEnd(touch: Option<Point>, now: int, pathname: string) returns (nav: Option<NavRequest>)
      modifies this
      ensures pending == None
      ensures nav == SwipeResult(old(pending), touch, now, pathname)
    {
      var start := pending;
      pending := None;
      nav := None;
      if start.None? {
        return;
      }
      if touch.None? {
        return;
      }
      var g := Measure(start.value, touch.value, now);
      if !IsQualifyingSwipe(g) {
        return;
      }
      var currentIndex := FindCurrentTabIndex(pathname);
      if currentIndex == -1 {
        return;
      }
      var nextIndex := NextIndex(currentIndex, g.dx);
      if nextIndex == currentIndex {
        return;
      }
      nav := Some(DestinationOf(TAB_ORDER[nextIndex]));
    }
  }
}
