/**
 * Derived values of the chat header (src/screens/chat/components/chat-header.tsx):
 * the "last synced" age label, the stale flag, the connection-status label,
 * the compact-header test, and which controls the header renders.
 *
 * `Date.now()` is the parameter `now`; times are integer milliseconds.
 */
module ChatHeader {

  // ---------------------------------------------------------------------------
  // Decimal numerals, as `${n}` writes a non-negative integer

  function DigitChar(d: nat): (c: char)
    requires d < 10
    ensures '0' <= c <= '9'
  {
    (48 + d) as char
  }

  predicate IsDigits(s: string) {
    forall i :: 0 <= i < |s| ==> '0' <= s[i] <= '9'
  }

  /** The decimal numeral of n: at least one digit, no leading zero. */
  function NatToString(n: nat): (s: string)
    ensures |s| >= 1 && IsDigits(s)
    ensures |s| > 1 ==> s[0] != '0'
    decreases n
  {
    if n < 10 then [DigitChar(n)] else NatToString(n / 10) + [DigitChar(n % 10)]
  }

  /** The value of a numeral. */
  function ParseNat(s: string): nat
    requires IsDigits(s)
  {
    if s == [] then 0 else 10 * ParseNat(s[..|s| - 1]) + ((s[|s| - 1] as int) - 48)
  }

  /** Reading the numeral back gives the number. */
  lemma {:induction false} ParseNatToString(n: nat)
    ensures ParseNat(NatToString(n)) == n
    decreases n
  {
    if n >= 10 {
      var s := NatToString(n);
      assert s[..|s| - 1] == NatToString(n / 10);
      ParseNatToString(n / 10);
    }
  }

  // ---------------------------------------------------------------------------
  // Rounding

  /** `Math.round(n / d)` for integers: the nearest integer, halves rounded up. */
  function RoundDiv(n: int, d: int): int
    requires d > 0
  {
    (2 * n + d) / (2 * d)
  }

  /** RoundDiv(n, d) is within half of n / d, halves going up. */
  lemma RoundDivNearest(n: int, d: int)
    requires d > 0
    ensures 2 * d * RoundDiv(n, d) - d <= 2 * n < 2 * d * RoundDiv(n, d) + d
  {
    var q := RoundDiv(n, d);
    var r := (2 * n + d) % (2 * d);
    assert 2 * n + d == 2 * d * q + r && 0 <= r < 2 * d;
  }

  /** Floor division by a positive number keeps order. */
  lemma DivMonotone(x: int, y: int, k: int)
    requires k > 0 && x <= y
    ensures x / k <= y / k
  {
    var qx, qy := x / k, y / k;
    assert x == k * qx + x % k && y == k * qy + y % k;
    if qx > qy {
      assert qx >= qy + 1;
      assert k * qx >= k * (qy + 1) by {
        var diff := qx - (qy + 1);
        assert k * qx == k * (qy + 1) + k * diff;
      }
      assert false;
    }
  }

  /** Rounding keeps order. */
  lemma RoundDivMonotone(a: int, b: int, d: int)
    requires d > 0 && a <= b
    ensures RoundDiv(a, d) <= RoundDiv(b, d)
  {
    DivMonotone(2 * a + d, 2 * b + d, 2 * d);
  }

  // ---------------------------------------------------------------------------
  // The age label

  /** `seconds` in formatSyncAge. */
  function ElapsedSeconds(updatedAt: int, now: int): int {
    RoundDiv(now - updatedAt, 1000)
  }

  function FormatSyncAge(updatedAt: int, now: int): string {
    if updatedAt <= 0 then ""
    else
      var seconds := ElapsedSeconds(updatedAt, now);
      if seconds < 5 then "just now"
      else if seconds < 60 then NatToString(seconds) + "s ago"
      else
        var minutes := RoundDiv(seconds, 60);
        NatToString(minutes) + "m ago"
  }

  /** The four outcomes of formatSyncAge. The number in a seconds label reads
      back as the rounded elapsed seconds, and a minutes label shows at least
      one minute, the elapsed seconds rounded to minutes. */
  lemma FormatSyncAgeCases(updatedAt: int, now: int)
    ensures updatedAt <= 0 ==> FormatSyncAge(updatedAt, now) == ""
    ensures var s := ElapsedSeconds(updatedAt, now);
      updatedAt > 0 && s < 5 ==> FormatSyncAge(updatedAt, now) == "just now"
    ensures var s := ElapsedSeconds(updatedAt, now);
      updatedAt > 0 && 5 <= s < 60 ==>
        exists digits :: IsDigits(digits) && (|digits| > 1 ==> digits[0] != '0') &&
          FormatSyncAge(updatedAt, now) == digits + "s ago" && ParseNat(digits) == s
    ensures var s := ElapsedSeconds(updatedAt, now);
      updatedAt > 0 && s >= 60 ==>
        exists digits :: IsDigits(digits) && (|digits| > 1 ==> digits[0] != '0') &&
          FormatSyncAge(updatedAt, now) == digits + "m ago" &&
          ParseNat(digits) == RoundDiv(s, 60) >= 1 &&
          120 * ParseNat(digits) - 60 <= 2 * s < 120 * ParseNat(digits) + 60
  {
    var s := ElapsedSeconds(updatedAt, now);
    if updatedAt > 0 && 5 <= s < 60 {
      ParseNatToString(s);
      assert IsDigits(NatToString(s)) && FormatSyncAge(updatedAt, now) == NatToString(s) + "s ago";
    }
    if updatedAt > 0 && s >= 60 {
      var m := RoundDiv(s, 60);
      RoundDivMonotone(60, s, 60);
      RoundDivNearest(s, 60);
      ParseNatToString(m);
      assert IsDigits(NatToString(m)) && FormatSyncAge(updatedAt, now) == NatToString(m) + "m ago";
    }
  }

  /** A timestamp in the future reads "just now". */
  lemma FutureIsJustNow(updatedAt: int, now: int)
    requires 0 < updatedAt && now <= updatedAt
    ensures FormatSyncAge(updatedAt, now) == "just now"
  {
    RoundDivMonotone(now - updatedAt, 0, 1000);
  }

  /** Where the label switches: 4.499 s is "just now", 4.5 s is "5s ago",
      59.499 s is "59s ago" and 59.5 s already "1m ago". */
  lemma SyncAgeBoundaries(updatedAt: int)
    requires updatedAt > 0
    ensures FormatSyncAge(updatedAt, updatedAt + 4499) == "just now"
    ensures FormatSyncAge(updatedAt, updatedAt + 4500) == "5s ago"
    ensures FormatSyncAge(updatedAt, updatedAt + 59499) == "59s ago"
    ensures FormatSyncAge(updatedAt, updatedAt + 59500) == "1m ago"
  {
    assert ElapsedSeconds(updatedAt, updatedAt + 4499) == 4;
    assert ElapsedSeconds(updatedAt, updatedAt + 4500) == 5;
    assert ElapsedSeconds(updatedAt, updatedAt + 59499) == 59;
    assert ElapsedSeconds(updatedAt, updatedAt + 59500) == 60;
    assert NatToString(59) == NatToString(5) + [DigitChar(9)];
    assert RoundDiv(60, 60) == 1;
  }

  // ---------------------------------------------------------------------------
  // Flags and labels

  /** The last fetch is more than 15 s old. */
  predicate IsStale(dataUpdatedAt: int, now: int) {
    dataUpdatedAt > 0 && now - dataUpdatedAt > 15000
  }

  /** formatSyncAge, read at the same clock value as isStale, never claims a
      fresh sync once the data is stale: it gives at least 15 seconds, or
      minutes. The rendered label is the `syncLabel` state of the last
      5-second tick instead, which may be older (see StaleLabelMayLag). */
  lemma StaleIsNotFresh(dataUpdatedAt: int, now: int)
    requires IsStale(dataUpdatedAt, now)
    ensures ElapsedSeconds(dataUpdatedAt, now) >= 15
    ensures FormatSyncAge(dataUpdatedAt, now) != "" && FormatSyncAge(dataUpdatedAt, now) != "just now"
  {
    RoundDivMonotone(15000, now - dataUpdatedAt, 1000);
    assert RoundDiv(15000, 1000) == 15;
    var s := ElapsedSeconds(dataUpdatedAt, now);
    var r := FormatSyncAge(dataUpdatedAt, now);
    var unit := if s < 60 then "s ago" else "m ago";
    assert r[|r| - 5..] == unit;
  }

  /** The header is compact when it has the sidebar button and no
      file-explorer button. */
  predicate IsCompactMobileHeader(showSidebarButton: bool, showFileExplorerButton: bool) {
    showSidebarButton && !showFileExplorerButton
  }

  datatype ConnectionStatus = Connected | Connecting | Disconnected

  function MobileStatusLabel(status: ConnectionStatus): (text: string)
    ensures text == "Online" <==> status == Connected
    ensures text == "Offline" <==> status == Disconnected
    ensures text == "Connecting" <==> status != Connected && status != Disconnected
  {
    if status == Connected then "Online"
    else if status == Disconnected then "Offline"
    else "Connecting"
  }

  // ---------------------------------------------------------------------------
  // What the header renders

  /** The header's props, with their defaults applied; `hasRefresh` says
      whether `onRefresh` was given. */
  datatype HeaderProps = HeaderProps(
    activeTitle: string,
    showSidebarButton: bool,
    showFileExplorerButton: bool,
    fileExplorerCollapsed: bool,
    dataUpdatedAt: int,
    hasRefresh: bool,
    mobileStatus: ConnectionStatus)

  /** The props when only the title is given. */
  function DefaultProps(activeTitle: string): HeaderProps {
    HeaderProps(activeTitle, false, false, true, 0, false, Connecting)
  }

  /** The header's children, left to right. */
  datatype Item =
    | SidebarButton
    | FileExplorerButton(tooltip: string)
    | Title(text: string, truncated: bool)
    | StatusPill(status: ConnectionStatus, caption: string)
    | SyncLabel(text: string)
    | RefreshButton
    | UsageMeter

  /** The `syncLabel` span's text. */
  function SyncText(syncLabel: string, stale: bool): string {
    (if stale then "⚠ " else "") + syncLabel
  }

  /** The buttons left of the title. */
  function LeadingItems(props: HeaderProps): (items: seq<Item>)
    ensures forall i :: 0 <= i < |items| ==> items[i].SidebarButton? || items[i].FileExplorerButton?
    ensures SidebarButton in items <==> props.showSidebarButton
    ensures (exists i :: 0 <= i < |items| && items[i].FileExplorerButton?) <==> props.showFileExplorerButton
    ensures forall i :: 0 <= i < |items| && items[i] == SidebarButton ==> i == 0
    ensures forall i :: 0 <= i < |items| && items[i].FileExplorerButton? ==>
      i == |items| - 1 && items[i].tooltip == (if props.fileExplorerCollapsed then "Show files" else "Hide files")
  {
    var sidebar := if props.showSidebarButton then [SidebarButton] else [];
    var explorer := if props.showFileExplorerButton
      then [FileExplorerButton(if props.fileExplorerCollapsed then "Show files" else "Hide files")]
      else [];
    assert explorer != [] ==> (sidebar + explorer)[|sidebar|].FileExplorerButton?;
    sidebar + explorer
  }

  /** The header is compact exactly when the only button left of the title
      is the sidebar button. */
  lemma CompactIffSidebarOnly(props: HeaderProps)
    ensures IsCompactMobileHeader(props.showSidebarButton, props.showFileExplorerButton) <==>
      LeadingItems(props) == [SidebarButton]
  {
    var lead := LeadingItems(props);
    if lead == [SidebarButton] {
      assert SidebarButton in lead;
      assert !lead[0].FileExplorerButton?;
    }
  }

  /** What follows the title: the compact branch or the full one. */
  function TrailingItems(props: HeaderProps, syncLabel: string, now: int): seq<Item> {
    if IsCompactMobileHeader(props.showSidebarButton, props.showFileExplorerButton) then
      [StatusPill(props.mobileStatus, MobileStatusLabel(props.mobileStatus))]
    else
      (if syncLabel != "" then [SyncLabel(SyncText(syncLabel, IsStale(props.dataUpdatedAt, now)))] else []) +
      (if props.hasRefresh then [RefreshButton] else []) +
      [UsageMeter]
  }

  /** The rendered children for the props, the current `syncLabel` state and
      the clock, left to right. */
  function HeaderItems(props: HeaderProps, syncLabel: string, now: int): seq<Item> {
    LeadingItems(props) +
    [Title(props.activeTitle, IsCompactMobileHeader(props.showSidebarButton, props.showFileExplorerButton))] +
    TrailingItems(props, syncLabel, now)
  }

  /** Each child is a leading button, the title, or a trailing item. */
  lemma HeaderItemsAt(props: HeaderProps, syncLabel: string, now: int, i: nat)
    requires i < |HeaderItems(props, syncLabel, now)|
    ensures var lead := LeadingItems(props);
      HeaderItems(props, syncLabel, now)[i] ==
        if i < |lead| then lead[i]
        else if i == |lead| then Title(props.activeTitle, IsCompactMobileHeader(props.showSidebarButton, props.showFileExplorerButton))
        else TrailingItems(props, syncLabel, now)[i - |lead| - 1]
  {
  }

  /** The compact half of CompactBranch. */
  lemma CompactTail(props: HeaderProps, syncLabel: string, now: int)
    requires IsCompactMobileHeader(props.showSidebarButton, props.showFileExplorerButton)
    ensures var items := HeaderItems(props, syncLabel, now);
      items[|items| - 1] == StatusPill(props.mobileStatus, MobileStatusLabel(props.mobileStatus)) &&
      forall i :: 0 <= i < |items| ==> !items[i].SyncLabel? && !items[i].RefreshButton? && !items[i].UsageMeter?
  {
    var items := HeaderItems(props, syncLabel, now);
    forall i | 0 <= i < |items| { HeaderItemsAt(props, syncLabel, now, i); }
  }

  /** The full half of CompactBranch. */
  lemma FullTail(props: HeaderProps, syncLabel: string, now: int)
    requires !IsCompactMobileHeader(props.showSidebarButton, props.showFileExplorerButton)
    ensures var items := HeaderItems(props, syncLabel, now);
      items[|items| - 1] == UsageMeter &&
      (forall i :: 0 <= i < |items| ==> !items[i].StatusPill?) &&
      ((exists i :: 0 <= i < |items| && items[i] == RefreshButton) <==> props.hasRefresh)
  {
    var lead := LeadingItems(props);
    var items := HeaderItems(props, syncLabel, now);
    forall i | 0 <= i < |items| { HeaderItemsAt(props, syncLabel, now, i); }
    if props.hasRefresh {
      var k := |lead| + 1 + (if syncLabel != "" then 1 else 0);
      assert items[k] == RefreshButton;
    }
  }

  /** In compact mode the status pill replaces the sync label, the refresh
      button and the usage meter; otherwise there is no pill and the usage
      meter comes last. */
  lemma CompactBranch(props: HeaderProps, syncLabel: string, now: int)
    ensures var items := HeaderItems(props, syncLabel, now);
      IsCompactMobileHeader(props.showSidebarButton, props.showFileExplorerButton) ==>
        items[|items| - 1] == StatusPill(props.mobileStatus, MobileStatusLabel(props.mobileStatus)) &&
        forall i :: 0 <= i < |items| ==> !items[i].SyncLabel? && !items[i].RefreshButton? && !items[i].UsageMeter?
    ensures var items := HeaderItems(props, syncLabel, now);
      !IsCompactMobileHeader(props.showSidebarButton, props.showFileExplorerButton) ==>
        items[|items| - 1] == UsageMeter &&
        (forall i :: 0 <= i < |items| ==> !items[i].StatusPill?) &&
        ((exists i :: 0 <= i < |items| && items[i] == RefreshButton) <==> props.hasRefresh)
  {
    if IsCompactMobileHeader(props.showSidebarButton, props.showFileExplorerButton) {
      CompactTail(props, syncLabel, now);
    } else {
      FullTail(props, syncLabel, now);
    }
  }

  /** Outside compact mode the sync label is shown exactly when it is not
      empty, with the warning sign in front exactly when the data is stale. */
  lemma SyncLabelShown(props: HeaderProps, syncLabel: string, now: int)
    requires !IsCompactMobileHeader(props.showSidebarButton, props.showFileExplorerButton)
    ensures var items := HeaderItems(props, syncLabel, now);
      (exists i :: 0 <= i < |items| && items[i].SyncLabel?) <==> syncLabel != ""
    ensures var items := HeaderItems(props, syncLabel, now);
      forall i :: 0 <= i < |items| && items[i].SyncLabel? ==>
        items[i].text == SyncText(syncLabel, IsStale(props.dataUpdatedAt, now)) &&
        (IsStale(props.dataUpdatedAt, now) ==> items[i].text[..2] == "⚠ ") &&
        (!IsStale(props.dataUpdatedAt, now) ==> items[i].text == syncLabel)
  {
    var lead := LeadingItems(props);
    var title := Title(props.activeTitle, false);
    var tail := TrailingItems(props, syncLabel, now);
    var items := HeaderItems(props, syncLabel, now);
    forall i | 0 <= i < |items| { HeaderItemsAt(props, syncLabel, now, i); }
    if syncLabel != "" {
      assert items[|lead| + 1].SyncLabel?;
    }
    var stale := IsStale(props.dataUpdatedAt, now);
    assert stale ==> SyncText(syncLabel, stale)[..2] == "⚠ ";
  }

  /** The rendered label comes from the last tick of the 5-second interval,
      while staleness is computed at render time: a render between ticks can
      show the warning sign next to an age under 15 seconds. */
  lemma StaleLabelMayLag()
    ensures FormatSyncAge(1, 10101) == "10s ago"
    ensures IsStale(1, 15051)
    ensures HeaderItems(HeaderProps("t", false, false, true, 1, false, Connected), "10s ago", 15051) ==
      [Title("t", false), SyncLabel("⚠ 10s ago"), UsageMeter]
  {
    assert RoundDiv(10100, 1000) == 10;
    var props := HeaderProps("t", false, false, true, 1, false, Connected);
    assert LeadingItems(props) == [];
    assert SyncText("10s ago", true) == "⚠ 10s ago";
    assert TrailingItems(props, "10s ago", 15051) == [SyncLabel("⚠ 10s ago")] + [] + [UsageMeter];
  }

  /** A header given only its title is not compact, its status would read
      "Connecting", and it is never stale, whatever the clock says. */
  lemma DefaultsAreNotCompact(activeTitle: string, now: int)
    ensures !IsCompactMobileHeader(DefaultProps(activeTitle).showSidebarButton, DefaultProps(activeTitle).showFileExplorerButton)
    ensures MobileStatusLabel(DefaultProps(activeTitle).mobileStatus) == "Connecting"
    ensures !IsStale(DefaultProps(activeTitle).dataUpdatedAt, now)
  {
  }
}
