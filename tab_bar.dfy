/**
 * The mobile bottom tab bar (src/components/mobile-tab-bar.tsx): the ordered
 * table of tabs with their route predicates, the chat-route test, and the
 * component that chooses between the full bar, the chat pill and the chat
 * overlay from its one piece of local state, `chatNavOpen`.
 */
module TabBar {

  /** One tab: its id, its caption (the visible label), where pressing it navigates, and the
      predicate that marks it active (`aria-current`) for a path. */
  datatype Tab = Tab(id: string, caption: string, to: string, matches: string -> bool)

  /** The tab table, in left-to-right order. `a <= p` is "p starts with a". */
  const TABS: seq<Tab> := [
    Tab("dashboard", "Dashboard", "/dashboard", p => "/dashboard" <= p),
    Tab("agents", "Agent Hub", "/agent-swarm", p => "/agent-swarm" <= p || "/agents" <= p),
    Tab("chat", "Chat", "/chat/main", p => "/chat" <= p || p == "/new" || p == "/"),
    Tab("skills", "Skills", "/skills", p => "/skills" <= p),
    Tab("settings", "Settings", "/settings", p => "/settings" <= p)
  ]

  /** Position of the chat tab in TABS. */
  const CHAT_TAB: nat := 2

  /** Whether `pathname` is one of the chat routes, on which the full bar is
      replaced by the pill/overlay pair. */
  predicate IsOnChatRoute(pathname: string) {
    "/chat" <= pathname || pathname == "/new" || pathname == "/"
  }

  /** Index of the first tab of `tabs` whose predicate holds for `p`, or -1. */
  function FirstMatch(tabs: seq<Tab>, p: string): (r: int)
    ensures -1 <= r < |tabs|
    ensures r == -1 <==> forall i :: 0 <= i < |tabs| ==> !tabs[i].matches(p)
    ensures r != -1 ==> tabs[r].matches(p) && forall i :: 0 <= i < r ==> !tabs[i].matches(p)
  {
    if tabs == [] then -1
    else if tabs[0].matches(p) then 0
    else
      var k := FirstMatch(tabs[1..], p);
      if k == -1 then -1 else k + 1
  }

  /** The indices of the tabs rendered with `aria-current="page"` for `p`. */
  function ActiveTabs(p: string): set<nat> {
    set i: nat | i < |TABS| && TABS[i].matches(p)
  }

  /** The one tab a path can belong to, read off its first characters. */
  function TabKey(p: string): nat {
    if p == "/" || p == "/new" then 2
    else if |p| >= 2 && p[1] == 'd' then 0
    else if |p| >= 2 && p[1] == 'a' then 1
    else if |p| >= 2 && p[1] == 'c' then 2
    else if |p| >= 3 && p[1] == 's' && p[2] == 'k' then 3
    else 4
  }

  /** Each tab's predicate pins down the path's key. */
  lemma MatchHasKey(p: string, i: nat)
    requires i < |TABS| && TABS[i].matches(p)
    ensures TabKey(p) == i
  {
    if i == 0 {
      assert p[1] == "/dashboard"[1];
    } else if i == 1 {
      assert p[1] == 'a' by {
        if "/agent-swarm" <= p { assert p[1] == "/agent-swarm"[1]; }
        else { assert p[1] == "/agents"[1]; }
      }
    } else if i == 2 {
      if "/chat" <= p { assert p[1] == "/chat"[1]; }
    } else if i == 3 {
      assert p[1] == "/skills"[1] && p[2] == "/skills"[2];
    } else {
      assert p[1] == "/settings"[1] && p[2] == "/settings"[2];
    }
  }

  /** The tab predicates are pairwise disjoint. */
  lemma MatchesDisjoint(p: string, i: nat, j: nat)
    requires i < |TABS| && j < |TABS|
    requires TABS[i].matches(p) && TABS[j].matches(p)
    ensures i == j
  {
    MatchHasKey(p, i);
    MatchHasKey(p, j);
  }

  /** At most one tab is ever active, and the active one is the first match. */
  lemma ActiveTabsIsFirstMatch(p: string)
    ensures ActiveTabs(p) == if FirstMatch(TABS, p) == -1 then {} else {FirstMatch(TABS, p) as nat}
    ensures |ActiveTabs(p)| <= 1
  {
    var k := FirstMatch(TABS, p);
    forall i: nat | i in ActiveTabs(p) ensures k != -1 && i == k {
      if k != -1 {
        MatchesDisjoint(p, i, k as nat);
      }
    }
  }

  /** The chat-route test is exactly the chat tab's predicate. */
  lemma ChatRouteIsChatTab(p: string)
    ensures TABS[CHAT_TAB].id == "chat"
    ensures IsOnChatRoute(p) == TABS[CHAT_TAB].matches(p)
  {
  }

  /** What the tab bar renders. */
  datatype View = FullBar | ChatPill | ChatOverlay

  /** The mode selection of MobileTabBar for a path and the overlay flag. */
  function ViewFor(pathname: string, chatNavOpen: bool): (v: View)
    ensures v == FullBar <==> !IsOnChatRoute(pathname)
    ensures v == ChatPill <==> IsOnChatRoute(pathname) && !chatNavOpen
    ensures v == ChatOverlay <==> IsOnChatRoute(pathname) && chatNavOpen
  {
    if IsOnChatRoute(pathname) then
      if chatNavOpen then ChatOverlay else ChatPill
    else
      FullBar
  }

  /** The full bar is shown exactly when the chat tab is not the active tab. */
  lemma FullBarIffChatTabInactive(pathname: string, chatNavOpen: bool)
    ensures ViewFor(pathname, chatNavOpen) == FullBar <==> FirstMatch(TABS, pathname) != CHAT_TAB as int
  {
    ChatRouteIsChatTab(pathname);
    var k := FirstMatch(TABS, pathname);
    if k != -1 && TABS[CHAT_TAB].matches(pathname) {
      MatchesDisjoint(pathname, k as nat, CHAT_TAB);
    }
  }

  /** The view depends on the route only through its chat/non-chat class:
      the overlay flag survives a visit to a non-chat route, so coming back to
      a chat route shows the overlay again if it was open when the user left. */
  lemma OverlayFlagSurvivesRouteChange(p: string, q: string, open: bool)
    requires IsOnChatRoute(p) && !IsOnChatRoute(q)
    ensures ViewFor(q, open) == FullBar
    ensures ViewFor(p, open) == (if open then ChatOverlay else ChatPill)
  {
  }

  /** An observable effect of a button press, in the order it happens. */
  datatype Effect = SetChatNavOpen(open: bool) | Navigate(to: string)

  /** The MobileTabBar component with its `useState` flag. */
  class MobileTabBar {
    var chatNavOpen: bool

    constructor ()
      ensures !chatNavOpen
    {
      chatNavOpen := false;
    }

    /** What is rendered on `pathname`. */
    function Shown(pathname: string): (v: View)
      reads this
      ensures v == FullBar <==> !IsOnChatRoute(pathname)
      ensures v == ChatPill <==> IsOnChatRoute(pathname) && !chatNavOpen
      ensures v == ChatOverlay <==> IsOnChatRoute(pathname) && chatNavOpen
    {
      ViewFor(pathname, chatNavOpen)
    }

    /** The pill's `onOpen`. */
    method OpenNav()
      modifies this
      ensures chatNavOpen
    {
      chatNavOpen := true;
    }

    /** The backdrop's `onClose`. */
    method CloseNav()
      modifies this
      ensures !chatNavOpen
    {
      chatNavOpen := false;
    }

    /** Pressing tab `i` in the overlay: close first, then navigate. */
    method OverlayTabPress(i: nat) returns (effects: seq<Effect>)
      requires i < |TABS|
      modifies this
      ensures !chatNavOpen
      ensures effects == [SetChatNavOpen(false), Navigate(TABS[i].to)]
    {
      chatNavOpen := false;
      effects := [SetChatNavOpen(false)];
      effects := effects + [Navigate(TABS[i].to)];
    }

    /** Pressing tab `i` in the full bar only navigates. */
    method FullBarTabPress(i: nat) returns (effects: seq<Effect>)
      requires i < |TABS|
      ensures effects == [Navigate(TABS[i].to)]
    {
      effects := [Navigate(TABS[i].to)];
    }
  }

  /** Opening the overlay on a chat route and then picking a tab leaves the
      flag cleared: landing on any chat route afterwards shows the pill. */
  method OpenThenPick(bar: MobileTabBar, p: string, i: nat, q: string) returns (effects: seq<Effect>)
    requires IsOnChatRoute(p) && IsOnChatRoute(q) && i < |TABS|
    modifies bar
    ensures bar.Shown(q) == ChatPill
    ensures effects == [SetChatNavOpen(false), Navigate(TABS[i].to)]
  {
    bar.OpenNav();
    assert bar.Shown(p) == ChatOverlay;
    effects := bar.OverlayTabPress(i);
  }
}
