# Mobile navigation and status logic, modelled in Dafny

This project models the mobile interaction layer of a chat/workspace web
application. It leaves out the React rendering, the router, the store and the
file system. Five source files are modelled, one module each. A sixth module,
TabAgreement, models no source file of its own: it relates the swipe hook to
the tab bar. The modules are:

- **TabBar** (`src/components/mobile-tab-bar.tsx`): the five-entry tab table and
  its route predicates, the chat-route test, and the `MobileTabBar` component.
  The component uses its one `chatNavOpen` flag to choose between the full bar,
  the chat pill and the chat overlay. The overlay's tab press closes first and
  then navigates.
- **SwipeNavigation** (`src/hooks/use-swipe-navigation.ts`): the swipe hook as a
  class with a single `pending` slot (the hook's `touchStartRef`). It has the
  lookup from path to tab index, the excluded-target test over an element and
  its ancestors, the thresholds (|dx| > 60, |dy| < 30, dt < 500), the clamped
  step to the next tab and the fixed table of destinations.
- **TabAgreement**: lemmas showing that the swipe hook's copy of the tab table
  and the tab bar's copy agree. They agree on the current tab, on the chat
  routes and on each tab's destination.
- **MobileKeyboard** (`src/hooks/use-mobile-keyboard.ts`): the effect as a class
  holding the listener set, a log of `--app-height` writes and a log of
  `setMobileKeyboardOpen` calls.
- **PipelineStatus** (`src/routes/api/pipeline-status.ts`): the GET handler.
  It returns early when the request is unauthorized and when there is no
  state. Otherwise it counts tasks by status and by niche, collects the held
  tasks and counts posts by status. The model proves that the counts add up
  to the totals and that the held list holds exactly the held tasks, in order.
- **ChatHeader** (`src/screens/chat/components/chat-header.tsx`): `formatSyncAge`,
  the stale and compact tests, the connection-status label and which controls
  the header renders.

Inputs from outside become parameters:
- `Date.now()`.
- Touch points and the touch target (an element and its ancestors as tag/class
  records).
- `window.visualViewport` and `window.innerHeight` (integers).
- The router's current path.
- The result of `isAuthenticated`.
- What `readJson` returned for each file.

Outputs become values or logs:
- Navigations are returned as `navigate` requests or as an ordered list of
  effects.
- CSS-variable writes and store writes are appended to logs.

The model follows the code as written:
- The keyboard tracker has one strict 100 px threshold and no hysteresis.
- The viewport height is not rounded.
- Updates are not coalesced per animation frame.
- The store setter is called on every update, even with the same value.
- Without a visual viewport, the effect writes `innerHeight` once and
  registers no listener at all.
- The tab bar's `chatNavOpen` flag is only written by the pill, the backdrop
  and the overlay's tab buttons. A route change by itself does not reset it,
  so returning to a chat route shows the overlay again if it was open
  (`TabBar.OverlayFlagSurvivesRouteChange`). The lemma is stated over
  `ViewFor` with one flag value for both routes. That the flag really is
  unchanged follows from the class: `MobileTabBar.Shown` only reads
  `chatNavOpen`, and only `OpenNav`, `CloseNav` and `OverlayTabPress` modify it.

`Math.round(n / d)` on integers is modelled exactly as `(2n + d) / (2d)` with
floor division (`ChatHeader.RoundDiv`).

## Model

| member | source | states |
|---|---|---|
| TabBar.FirstMatch | src/components/mobile-tab-bar.tsx:25-61 | returns -1 exactly when no tab's predicate holds; otherwise the index of a matching tab with no matching tab before it |
| TabBar.MatchHasKey | src/components/mobile-tab-bar.tsx:25-61 | a path matched by tab i has key i (the key is read off the path's first characters), so no path is matched by two tabs; some paths match none |
| TabBar.MatchesDisjoint | src/components/mobile-tab-bar.tsx:25-61 | no path satisfies the predicates of two different tabs |
| TabBar.ActiveTabsIsFirstMatch | src/components/mobile-tab-bar.tsx:81-89 | the set of tabs rendered with aria-current is empty or exactly the first match, so at most one tab is active |
| TabBar.IsOnChatRoute | src/components/mobile-tab-bar.tsx:63-65 | the chat-route test; `TabBar.ChatRouteIsChatTab` proves it equals the chat tab's predicate and `TabAgreement.ChatRouteIsSwipeChatTab` ties it to the swipe hook's chat tab |
| TabBar.ActiveTabs | src/components/mobile-tab-bar.tsx:81-89 | the tabs rendered with aria-current; `TabBar.ActiveTabsIsFirstMatch` proves the set holds at most the first match |
| TabBar.ChatRouteIsChatTab | src/components/mobile-tab-bar.tsx:40-65 | isOnChatRoute equals the chat tab's match predicate, and tab 2 is the chat tab |
| TabBar.ViewFor | src/components/mobile-tab-bar.tsx:219-236 | full bar iff not on a chat route; pill iff on a chat route with the flag clear; overlay iff on a chat route with the flag set |
| TabBar.FullBarIffChatTabInactive | src/components/mobile-tab-bar.tsx:222-235 | the full bar is shown exactly when the first matching tab is not the chat tab |
| TabBar.OverlayFlagSurvivesRouteChange | src/components/mobile-tab-bar.tsx:219-231 | a non-chat route shows the full bar whatever the flag, and a chat route shows the pill or overlay given by the same unchanged flag |
| TabBar.MobileTabBar.constructor | src/components/mobile-tab-bar.tsx:221 | the flag starts false |
| TabBar.MobileTabBar.Shown | src/components/mobile-tab-bar.tsx:219-236 | the component renders the full bar iff off a chat route, the pill iff on one with the flag clear, the overlay iff on one with the flag set |
| TabBar.MobileTabBar.OpenNav | src/components/mobile-tab-bar.tsx:228 | the pill's action sets the flag |
| TabBar.MobileTabBar.CloseNav | src/components/mobile-tab-bar.tsx:155-159 | the backdrop's action clears the flag |
| TabBar.MobileTabBar.OverlayTabPress | src/components/mobile-tab-bar.tsx:173-176 | the overlay tab press clears the flag, and its effects are exactly "close" followed by "navigate to the tab's target" |
| TabBar.MobileTabBar.FullBarTabPress | src/components/mobile-tab-bar.tsx:88 | a full-bar tab press only navigates to the tab's target and changes no state |
| TabBar.OpenThenPick | src/components/mobile-tab-bar.tsx:225-229 | opening the overlay and then picking a tab navigates and leaves the flag clear, so any chat route then shows the pill |
| SwipeNavigation.FindCurrentTabIndex | src/hooks/use-swipe-navigation.ts:19-30 | the result is -1 or a valid index into TAB_ORDER |
| SwipeNavigation.Closest | src/hooks/use-swipe-navigation.ts:35 | None iff no node of the chain is excluded; otherwise the nearest excluded node |
| SwipeNavigation.IsExcluded | src/hooks/use-swipe-navigation.ts:35 | the selector: an input, textarea, button, select, pre or code element, or one with class no-swipe; used by `SwipeNavigation.Closest` and `SwipeNavigation.IgnoredIffExcludedOnPath` |
| SwipeNavigation.IgnoredIffExcludedOnPath | src/hooks/use-swipe-navigation.ts:32-37 | a target is ignored iff it is an element that is excluded itself or has an excluded ancestor; non-elements never are |
| SwipeNavigation.ShouldIgnoreSwipeTarget | src/hooks/use-swipe-navigation.ts:32-37 | the excluded-target test; `SwipeNavigation.IgnoredIffExcludedOnPath` characterizes it and `SwipeNavigation.IgnoredStartNeverNavigates` shows its effect |
| SwipeNavigation.DestinationOf | src/hooks/use-swipe-navigation.ts:85-102 | the navigate request for each tab; `SwipeNavigation.DestinationPath` gives the path each resolves to, `SwipeNavigation.DestinationRoundTrip` that it lands back on the tab |
| SwipeNavigation.InterpolatePlain | src/hooks/use-swipe-navigation.ts:87 | a route without parameters resolves to itself |
| SwipeNavigation.InterpolateLastParam | src/hooks/use-swipe-navigation.ts:95 | a route ending in a `$name` segment resolves to its prefix followed by the parameter's value |
| SwipeNavigation.ChatHref | src/hooks/use-swipe-navigation.ts:95 | the chat request `/chat/$sessionKey` with sessionKey main resolves to `/chat/main` |
| SwipeNavigation.DestinationPath | src/hooks/use-swipe-navigation.ts:85-102 | each tab key's request resolves to /dashboard, /agent-swarm, /chat/main, /skills or /settings |
| SwipeNavigation.TabPathIsOnTab | src/hooks/use-swipe-navigation.ts:19-30 | the path of tab i is looked up as tab i |
| SwipeNavigation.DestinationRoundTrip | src/hooks/use-swipe-navigation.ts:85-102 | navigating to the destination of tab i lands on a path whose current tab index is i |
| SwipeNavigation.Measure | src/hooks/use-swipe-navigation.ts:69-71 | dx, dy and dt are the displacements from the start record to the end point and the end time |
| SwipeNavigation.ThresholdsAreStrict | src/hooks/use-swipe-navigation.ts:73 | a swipe qualifies iff abs(dx) > 60, abs(dy) < 30 and dt < 500; each boundary value aborts |
| SwipeNavigation.IsQualifyingSwipe | src/hooks/use-swipe-navigation.ts:73 | the threshold test; `SwipeNavigation.ThresholdsAreStrict` states it as three strict bounds with each boundary value rejected |
| SwipeNavigation.NextIndex | src/hooks/use-swipe-navigation.ts:78-81 | the next index stays within the tab table |
| SwipeNavigation.NextIndexIsNeighbour | src/hooks/use-swipe-navigation.ts:78-83 | the next index equals the current one exactly at the edge the drag points to; otherwise it is one step in the drag's direction |
| SwipeNavigation.StartRecord | src/hooks/use-swipe-navigation.ts:46-58 | the slot is emptied iff the touch is missing or the target is ignored; otherwise it holds the touch's x, y and the current time |
| SwipeNavigation.SwipeResult | src/hooks/use-swipe-navigation.ts:60-103 | a navigation happens only with a start record, an end touch, a qualifying gesture and a known current tab |
| SwipeNavigation.SwipeLandsOnNeighbour | src/hooks/use-swipe-navigation.ts:75-102 | a qualifying swipe on a known tab does nothing iff it points past an edge, and otherwise requests exactly the destination-table entry of the adjacent tab in the drag direction, which lands on that tab |
| SwipeNavigation.IgnoredStartNeverNavigates | src/hooks/use-swipe-navigation.ts:46-64 | a touch begun on an excluded target never navigates, whatever the end touch |
| SwipeNavigation.UnknownRouteNeverNavigates | src/hooks/use-swipe-navigation.ts:75-76 | no navigation happens on a path that belongs to no tab |
| SwipeNavigation.RejectedSwipesFromFirstTab | src/hooks/use-swipe-navigation.ts:73-83 | from the first tab: a right drag, a drag with 40px vertical travel and a 600 ms drag all do nothing |
| SwipeNavigation.SwipeNavigator.constructor | src/hooks/use-swipe-navigation.ts:44 | the slot starts empty |
| SwipeNavigation.SwipeNavigator.OnTouchStart | src/hooks/use-swipe-navigation.ts:46-58 | the slot is overwritten with StartRecord, so the last start wins |
| SwipeNavigation.SwipeNavigator.OnTouchEnd | src/hooks/use-swipe-navigation.ts:60-105 | the slot is always cleared, including on the early returns, and the navigation returned is SwipeResult of the slot it took |
| TabAgreement.CurrentTabIsFirstMatch | src/hooks/use-swipe-navigation.ts:19-30 | for every path, the swipe hook's index equals the index of the first tab-bar entry whose predicate holds |
| TabAgreement.HighlightedIsSwipeCurrent | src/components/mobile-tab-bar.tsx:81-89 | the tab the bar highlights is exactly the tab the swipe treats as current |
| TabAgreement.ChatRouteIsSwipeChatTab | src/components/mobile-tab-bar.tsx:63-65 | a path is a chat route iff the swipe's current tab is the chat tab |
| TabAgreement.SameDestinations | src/hooks/use-swipe-navigation.ts:85-102 | the swipe's destination for tab i resolves to the tab bar's target for tab i |
| MobileKeyboard.SingleStrictThreshold | src/hooks/use-mobile-keyboard.ts:34-45 | a gap of 100px is closed and 101px open; the verdict is monotone in the gap; gaps of 119px and 79px give open and closed regardless of history |
| MobileKeyboard.KeyboardOpen | src/hooks/use-mobile-keyboard.ts:44-45 | the open/closed verdict; `MobileKeyboard.SingleStrictThreshold` proves the single strict 100px cut and its monotonicity |
| MobileKeyboard.KeyboardTracker.constructor | src/hooks/use-mobile-keyboard.ts:23 | before the effect runs nothing is written, no listener is registered and there is no cleanup |
| MobileKeyboard.KeyboardTracker.Update | src/hooks/use-mobile-keyboard.ts:36-47 | every update appends the viewport height to the height log and the current threshold verdict to the setter log, duplicates included |
| MobileKeyboard.KeyboardTracker.Activate | src/hooks/use-mobile-keyboard.ts:23-56 | without a viewport: one write of innerHeight, no setter call, no listener, no cleanup; with one: one update first, then exactly the three listeners |
| MobileKeyboard.KeyboardTracker.Dispatch | src/hooks/use-mobile-keyboard.ts:52-56 | an event runs update iff its listener is registered, otherwise nothing is written |
| MobileKeyboard.KeyboardTracker.Cleanup | src/hooks/use-mobile-keyboard.ts:58-62 | cleanup removes the three listeners added, leaving none, and writes nothing |
| MobileKeyboard.Lifetime | src/hooks/use-mobile-keyboard.ts:36-62 | activation then two identical events write three times; after cleanup an event writes nothing |
| PipelineStatus.OrUnknown | src/routes/api/pipeline-status.ts:48 | a missing or empty field gives 'unknown'; any other string gives itself; the result is never empty |
| PipelineStatus.Bump | src/routes/api/pipeline-status.ts:49 | incrementing sets the key's count to its old count, or 0, plus one, adds the key, and leaves every other count unchanged |
| PipelineStatus.HistogramCounts | src/routes/api/pipeline-status.ts:47-52 | a key is in the dictionary iff it occurs, with count equal to its number of occurrences |
| PipelineStatus.Histogram | src/routes/api/pipeline-status.ts:47-52 | the dictionary a counting loop builds; `PipelineStatus.HistogramCounts` and `PipelineStatus.HistogramSum` give its counts and total |
| PipelineStatus.HistogramSum | src/routes/api/pipeline-status.ts:82-84 | the counts sum to the number of items counted |
| PipelineStatus.StatusCountsPerKey | src/routes/api/pipeline-status.ts:47-49 | a status appears in byStatus iff some task has it, with the number of tasks that have it |
| PipelineStatus.StatusKeys | src/routes/api/pipeline-status.ts:48 | the status key of each task in iteration order, with the 'unknown' default; counted by `PipelineStatus.CountTasks` |
| PipelineStatus.NicheKeys | src/routes/api/pipeline-status.ts:51 | the niche key of each task in iteration order, with the 'unknown' default; counted by `PipelineStatus.CountTasks` |
| PipelineStatus.PostKeys | src/routes/api/pipeline-status.ts:71 | the status key of each post, with the 'unknown' default; counted by `PipelineStatus.CountPosts` |
| PipelineStatus.HeldOfSnoc | src/routes/api/pipeline-status.ts:54-65 | one more task extends the held list by that task's record exactly when it is held |
| PipelineStatus.IsHeld | src/routes/api/pipeline-status.ts:54-57 | a task is held iff its post status is held_high or held_medium; used by `PipelineStatus.HeldOfExactly` and `PipelineStatus.AllListedAreHeld` |
| PipelineStatus.HeldRecord | src/routes/api/pipeline-status.ts:58-64 | the pushed record: id, title, niche, safety result and post status taken raw; used by `PipelineStatus.HeldOfSnoc` and `PipelineStatus.HeldOfExactly` |
| PipelineStatus.HeldOfAppend | src/routes/api/pipeline-status.ts:54-65 | the held filter distributes over concatenation, so it keeps iteration order |
| PipelineStatus.HeldOfExactly | src/routes/api/pipeline-status.ts:54-65 | every listed record comes from a held task; every held task is listed; the list is no longer than the tasks |
| PipelineStatus.HeldOf | src/routes/api/pipeline-status.ts:54-65 | the held-task list in iteration order; `PipelineStatus.HeldOfExactly` and `PipelineStatus.AllListedAreHeld` characterize it |
| PipelineStatus.AllListedAreHeld | src/routes/api/pipeline-status.ts:54-57 | every listed record's post status is held_high or held_medium |
| PipelineStatus.SummaryTotals | src/routes/api/pipeline-status.ts:75-92 | byStatus and byNiche sum to tasks.total, posts.byStatus sums to posts.total, the held list is no longer than tasks.total, the heartbeat is passed through, and absent tasks or posts give totals of 0 |
| PipelineStatus.SummaryOf | src/routes/api/pipeline-status.ts:75-92 | the success response body; `PipelineStatus.SummaryTotals` and `PipelineStatus.StatusCountsPerKey` state its totals and counts |
| PipelineStatus.CountTasks | src/routes/api/pipeline-status.ts:43-66 | the task loop yields the status and niche histograms of the tasks and their held list |
| PipelineStatus.CountPosts | src/routes/api/pipeline-status.ts:68-73 | the post loop yields the status histogram of the posts |
| PipelineStatus.Get | src/routes/api/pipeline-status.ts:23-93 | unauthorized gives 401 with ok false and 'Unauthorized' and no file read; otherwise both files are read, a null state gives no_state with 'Pipeline has not run yet', and anything else gives the summary |
| ChatHeader.NatToString | src/screens/chat/components/chat-header.tsx:22 | the numeral is non-empty, all digits, without a leading zero |
| ChatHeader.ParseNatToString | src/screens/chat/components/chat-header.tsx:22 | reading the numeral back gives the number |
| ChatHeader.RoundDivNearest | src/screens/chat/components/chat-header.tsx:20 | the rounded value is within half of n/d, halves going up, as Math.round |
| ChatHeader.RoundDiv | src/screens/chat/components/chat-header.tsx:20-23 | Math.round of an integer quotient; `ChatHeader.RoundDivNearest` proves it is the nearest integer with halves up |
| ChatHeader.ElapsedSeconds | src/screens/chat/components/chat-header.tsx:20 | the elapsed time rounded to seconds; used by `ChatHeader.FormatSyncAgeCases` and `ChatHeader.StaleIsNotFresh` |
| ChatHeader.DivMonotone | src/screens/chat/components/chat-header.tsx:20 | floor division by a positive number keeps order |
| ChatHeader.RoundDivMonotone | src/screens/chat/components/chat-header.tsx:20 | rounding keeps order |
| ChatHeader.FormatSyncAgeCases | src/screens/chat/components/chat-header.tsx:18-25 | '' for a non-positive time; 'just now' below 5 s; between 5 and 59 s a label whose numeral, without a leading zero, reads back as the rounded seconds; otherwise such a numeral of at least 1 minute, the seconds rounded to minutes |
| ChatHeader.FormatSyncAge | src/screens/chat/components/chat-header.tsx:18-25 | the age label; `ChatHeader.FormatSyncAgeCases` gives its four branches and `ChatHeader.SyncAgeBoundaries` its rounding boundaries |
| ChatHeader.FutureIsJustNow | src/screens/chat/components/chat-header.tsx:19-21 | a positive timestamp in the future reads 'just now' |
| ChatHeader.SyncAgeBoundaries | src/screens/chat/components/chat-header.tsx:20-24 | 4499 ms reads 'just now', 4500 ms '5s ago', 59499 ms '59s ago', 59500 ms '1m ago' |
| ChatHeader.StaleIsNotFresh | src/screens/chat/components/chat-header.tsx:65 | when isStale holds, formatSyncAge read at the same clock value gives at least 15 rounded seconds and neither '' nor 'just now' (the rendered label may lag; see `ChatHeader.StaleLabelMayLag`) |
| ChatHeader.StaleLabelMayLag | src/screens/chat/components/chat-header.tsx:57-172 | the label shown is the last 5-second tick's value while isStale is computed at render time, so a render at 15051 ms after a tick at 10101 ms shows '⚠ 10s ago' |
| ChatHeader.IsStale | src/screens/chat/components/chat-header.tsx:65 | the stale test, more than 15 s since a positive timestamp; `ChatHeader.StaleIsNotFresh` relates it to formatSyncAge at the same clock value |
| ChatHeader.IsCompactMobileHeader | src/screens/chat/components/chat-header.tsx:66 | the compact test; `ChatHeader.CompactIffSidebarOnly` ties it to the buttons rendered |
| ChatHeader.MobileStatusLabel | src/screens/chat/components/chat-header.tsx:68-73 | Online iff connected, Offline iff disconnected, Connecting otherwise |
| ChatHeader.LeadingItems | src/screens/chat/components/chat-header.tsx:87-125 | left of the title there are only a sidebar button, present iff showSidebarButton and first, and a file-explorer button, present iff showFileExplorerButton and last, whose tooltip is 'Show files' iff the explorer is collapsed |
| ChatHeader.CompactIffSidebarOnly | src/screens/chat/components/chat-header.tsx:66-125 | the header is compact iff the only button left of the title is the sidebar button |
| ChatHeader.HeaderItemsAt | src/screens/chat/components/chat-header.tsx:82-204 | each child is a leading button, the title or a trailing item, in that order |
| ChatHeader.HeaderItems | src/screens/chat/components/chat-header.tsx:82-204 | the rendered children left to right; `ChatHeader.HeaderItemsAt` splits them, `ChatHeader.CompactBranch` and `ChatHeader.SyncLabelShown` state what appears |
| ChatHeader.TrailingItems | src/screens/chat/components/chat-header.tsx:135-202 | the children right of the title; `ChatHeader.CompactBranch` states both branches |
| ChatHeader.CompactTail | src/screens/chat/components/chat-header.tsx:135-156 | in compact mode the status pill is last and there is no sync label, refresh button or usage meter |
| ChatHeader.FullTail | src/screens/chat/components/chat-header.tsx:157-202 | outside compact mode there is no pill, the usage meter is last, and a refresh button appears iff onRefresh is given |
| ChatHeader.CompactBranch | src/screens/chat/components/chat-header.tsx:135-202 | compact: the status pill is last and there is no sync label, refresh button or usage meter; otherwise: no pill, the usage meter is last, and a refresh button appears iff onRefresh is given |
| ChatHeader.SyncLabelShown | src/screens/chat/components/chat-header.tsx:159-174 | outside compact mode the sync label appears iff it is non-empty, prefixed with the warning sign iff stale |
| ChatHeader.SyncText | src/screens/chat/components/chat-header.tsx:171-172 | the sync label's text: the warning sign and a space in front iff stale; `ChatHeader.SyncLabelShown` states it |
| ChatHeader.DefaultsAreNotCompact | src/screens/chat/components/chat-header.tsx:42-53 | with default props the header is not compact, the status label would read Connecting, and it is not stale at any clock value |
| ChatHeader.DefaultProps | src/screens/chat/components/chat-header.tsx:42-52 | the destructuring defaults: no sidebar or explorer button, explorer collapsed, no timestamp, no refresh, connecting; `ChatHeader.DefaultsAreNotCompact` states their consequences |

## Left out

- Rendering: JSX, class names, colours, icons, sizes and animations. The header's sync-label tooltip (`toLocaleTimeString`) is locale-dependent and not modelled.
- React machinery: `useCallback`, `memo`, effect dependency lists, and re-running the keyboard effect when the setter's identity changes.
- ChatHeader.StaleIsNotFresh: this speaks of formatSyncAge at the clock value isStale uses, not of the rendered label. That label is the `syncLabel` state from the last 5-second tick, so a stale header can show an age under 15 s (`ChatHeader.StaleLabelMayLag`).
- Timers in the chat header: the 5-second interval that refreshes `syncLabel` and the 600 ms refresh spin (`isRefreshing`, `handleRefresh`). The current `syncLabel` is a parameter of `ChatHeader.HeaderItems`.
- The router: `navigate` is returned as a request. `SwipeNavigation.Interpolate` models only `$name` substitution, with no URL encoding; an unknown parameter is kept as written.
- The store and the DOM: the `--app-height` value is logged as a number, without the `px` suffix. `closest` and `instanceof Element` are replaced by an explicit chain of tag/class records.
- The unreachable `if (!vv) return` guard inside `update()`: `vv` is captured non-null by then.
- File system, JSON parsing, path joining and `isAuthenticated`: these are inputs. The state document is a typed record. Fields of unexpected JSON types (a numeric status, a null task, an array where an object is expected) are not modelled.
- `Object.entries` ordering: the tasks arrive as a sequence in iteration order. JavaScript's rule that integer-like keys come first is not modelled.
- PipelineStatus.Bump: counting is modelled as a plain dictionary update. In the source the counters are `{}` objects, so `counts[key]` also finds `Object.prototype` members. A status or niche of `constructor`, `toString` and so on is counted by the model as an ordinary key, but the source stores a string (`"function Object() { [native code] }1"`). A `__proto__` key is never stored at all.
- PipelineStatus.HistogramSum: for the same reason, this holds of the model's dictionary but not of the source's object when a key names an `Object.prototype` member.
- PipelineStatus.SummaryTotals: the sums of byStatus, byNiche and posts.byStatus equal the totals only when no key names an `Object.prototype` member, as for `HistogramSum`.
- Key order inside the `byStatus`/`byNiche` objects of the response: histograms are maps.
- Floating point: coordinates, heights and timestamps are integers. Fractional `visualViewport.height` is not modelled.
