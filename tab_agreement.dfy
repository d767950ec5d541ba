/**
 * The swipe navigator (src/hooks/use-swipe-navigation.ts) and the tab bar
 * (src/components/mobile-tab-bar.tsx) each carry their own copy of the tab
 * table. These lemmas show that the two copies agree: on the current tab for
 * every path, on the chat routes and on where each tab leads.
 */
module TabAgreement {
  import opened TabBar
  import opened SwipeNavigation

  /** The swipe hook's if-chain finds the first tab whose predicate holds. */
  lemma CurrentTabIsFirstMatch(p: string)
    ensures FindCurrentTabIndex(p) == FirstMatch(TABS, p)
  {
    var k := FirstMatch(TABS, p);
    if k == -1 {
      assert forall i :: 0 <= i < 5 ==> !TABS[i].matches(p);
      assert !TABS[0].matches(p) && !TABS[1].matches(p) && !TABS[2].matches(p);
      assert !TABS[3].matches(p) && !TABS[4].matches(p);
    } else {
      assert TABS[k].matches(p);
      assert forall i :: 0 <= i < k ==> !TABS[i].matches(p);
      if k >= 1 { assert !TABS[0].matches(p); }
      if k >= 2 { assert !TABS[1].matches(p); }
      if k >= 3 { assert !TABS[2].matches(p); }
      if k >= 4 { assert !TABS[3].matches(p); }
    }
  }

  /** The tab the bar highlights is the tab the swipe treats as current. */
  lemma HighlightedIsSwipeCurrent(p: string)
    ensures ActiveTabs(p) == if FindCurrentTabIndex(p) == -1 then {} else {FindCurrentTabIndex(p) as nat}
  {
    ActiveTabsIsFirstMatch(p);
    CurrentTabIsFirstMatch(p);
  }

  /** A chat route is exactly a path on which the swipe's current tab is chat. */
  lemma ChatRouteIsSwipeChatTab(p: string)
    ensures IsOnChatRoute(p) <==> FindCurrentTabIndex(p) == CHAT_TAB as int
    ensures TAB_ORDER[CHAT_TAB] == Chat
  {
    ChatRouteIsChatTab(p);
    CurrentTabIsFirstMatch(p);
    FullBarIffChatTabInactive(p, false);
  }

  /** Both tables list the same destinations in the same order. */
  lemma SameDestinations(i: nat)
    requires i < |TABS|
    ensures |TABS| == |TAB_ORDER|
    ensures Href(DestinationOf(TAB_ORDER[i])) == TABS[i].to
  {
    DestinationPath(TAB_ORDER[i]);
  }
}
