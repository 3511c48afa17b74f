/**
  * The bottom tab bar: which tab the current path activates, the icon and
  * label each tab shows, and where each tab leads.
  */
module BottomTabBar {
  import opened Wrappers
  import opened Strings

  /** A navigation entry: its label, its outline icon name and its route inside the `(main)` group. */
  datatype NavItem = NavItem(labelText: string, icon: string, route: string)

  /** A rendered tab: what it shows and the route a press navigates to. */
  datatype Tab = Tab(labelText: string, icon: string, active: bool, target: string)

  const HomeRoute := "/(main)/"
  const GroupSegment := "/(main)"
  const OutlineSuffix := "-outline"

  /** The four entries of the app's navigation. */
  const NavItems := [
    NavItem("Home · Alfred", "hardware-chip-outline", "/(main)/"),
    NavItem("History", "list-outline", "/(main)/history"),
    NavItem("Dashboard", "bar-chart-outline", "/(main)/dashboard"),
    NavItem("Alerts", "notifications-outline", "/(main)/notifications")
  ]

  /**
    * `isActive`: the home route is active only on the root paths; any other
    * route is active when the path contains the route with its group
    * segment removed.
    */
  predicate IsActive(route: string, pathname: string)
    ensures IsActive(route, pathname) && route != HomeRoute ==> |RemoveFirst(route, GroupSegment)| <= |pathname|
  {
    if route == HomeRoute then pathname == "/" || pathname == "/index" || pathname == ""
    else Contains(pathname, RemoveFirst(route, GroupSegment))
  }

  /** An active tab shows the filled icon: its first `-outline` removed. */
  function IconName(icon: string, active: bool): (name: string)
    ensures !active ==> name == icon
    ensures active && !Contains(icon, OutlineSuffix) ==> name == icon
    ensures active && Contains(icon, OutlineSuffix) ==> |name| == |icon| - |OutlineSuffix|
  {
    if active then RemoveFirst(icon, OutlineSuffix) else icon
  }

  /** A label mentioning `Home` is shown as `Alfred`; any other label as it is. */
  function TabLabel(labelText: string): (shown: string)
    ensures Contains(labelText, "Home") ==> shown == "Alfred"
    ensures !Contains(labelText, "Home") ==> shown == labelText
  {
    if Contains(labelText, "Home") then "Alfred" else labelText
  }

  /** The tab one item renders to on a path. */
  function TabOf(item: NavItem, pathname: string): Tab {
    var active := IsActive(item.route, pathname);
    Tab(TabLabel(item.labelText), IconName(item.icon, active), active, item.route)
  }

  /** `items.map(...)`: one tab per item, in item order. */
  function Tabs(items: seq<NavItem>, pathname: string): (tabs: seq<Tab>)
    ensures |tabs| == |items|
    ensures forall i :: 0 <= i < |items| ==> tabs[i] == TabOf(items[i], pathname)
  {
    seq(|items|, i requires 0 <= i < |items| => TabOf(items[i], pathname))
  }

  /** Every tab leads to its own item's route, and is active exactly when that route matches the path. */
  lemma TabsFollowItems(items: seq<NavItem>, pathname: string)
    ensures forall i :: 0 <= i < |items| ==>
              Tabs(items, pathname)[i].target == items[i].route &&
              (Tabs(items, pathname)[i].active <==> IsActive(items[i].route, pathname))
  {
  }

  /** The filled icon of an active tab gives back the outline icon when `-outline` is put back where it was. */
  lemma ActiveIconRestores(icon: string)
    requires Contains(icon, OutlineSuffix)
    ensures var i := IndexOf(icon, OutlineSuffix).value;
            var name := IconName(icon, true);
            i <= |name| && name[..i] + OutlineSuffix + name[i..] == icon
  {
    RemoveFirstInverse(icon, OutlineSuffix);
  }

  /** A route of the group with its leading group segment removed. */
  lemma GroupRouteStripped(page: string)
    ensures RemoveFirst(GroupSegment + page, GroupSegment) == page
  {
    var route := GroupSegment + page;
    assert OccursAt(route, GroupSegment, 0);
    assert IndexOf(route, GroupSegment) == Some(0);
    assert route[|GroupSegment|..] == page;
  }

  /** A page's tab is active on the page's own path, and on any path that contains it. */
  lemma PageTabActive(page: string, before: string, after: string)
    requires GroupSegment + page != HomeRoute
    ensures IsActive(GroupSegment + page, before + page + after)
  {
    GroupRouteStripped(page);
    var pathname := before + page + after;
    assert pathname[|before|..|before| + |page|] == page;
    ContainsIff(pathname, page);
    assert OccursAt(pathname, page, |before|);
  }

  /** A route that is only the group segment is active on every path. */
  lemma BareGroupAlwaysActive(pathname: string)
    ensures IsActive(GroupSegment, pathname)
  {
    GroupRouteStripped([]);
    assert GroupSegment + [] == GroupSegment;
    ContainsIff(pathname, []);
    assert OccursAt(pathname, [], 0);
  }

  /** The home tab is active on the root paths and nowhere else. */
  lemma HomeTabActive(pathname: string)
    ensures IsActive(HomeRoute, pathname) <==> pathname in ["/", "/index", ""]
  {
  }

  /** A pattern longer than the text does not occur in it. */
  lemma LongerNotContained(s: string, p: string)
    requires |p| > |s|
    ensures !Contains(s, p)
  {
  }

  lemma HistoryTabActive()
    ensures IsActive("/(main)/history", "/history")
  {
    assert "/(main)/history" == GroupSegment + "/history";
    PageTabActive("/history", "", "");
    assert "" + "/history" + "" == "/history";
  }

  lemma DashboardTabIdle()
    ensures !IsActive("/(main)/dashboard", "/history")
  {
    assert "/(main)/dashboard" == GroupSegment + "/dashboard";
    GroupRouteStripped("/dashboard");
    LongerNotContained("/history", "/dashboard");
  }

  lemma AlertsTabIdle()
    ensures !IsActive("/(main)/notifications", "/history")
  {
    assert "/(main)/notifications" == GroupSegment + "/notifications";
    GroupRouteStripped("/notifications");
    LongerNotContained("/history", "/notifications");
  }

  /** A pattern does not occur where the text differs from it at some position. */
  lemma MismatchAt(s: string, p: string, i: nat, k: nat)
    requires k < |p| && i + k < |s| && s[i + k] != p[k]
    ensures !OccursAt(s, p, i)
  {
    if i + |p| <= |s| {
      assert s[i..i + |p|][k] == s[i + k];
    }
  }

  lemma ListIconFilled()
    ensures IconName("list-outline", true) == "list"
  {
    var icon := "list-outline";
    MismatchAt(icon, OutlineSuffix, 0, 0);
    MismatchAt(icon, OutlineSuffix, 1, 0);
    MismatchAt(icon, OutlineSuffix, 2, 0);
    MismatchAt(icon, OutlineSuffix, 3, 0);
    assert OccursAt(icon, OutlineSuffix, 4);
    assert IndexOf(icon, OutlineSuffix) == Some(4);
  }

  lemma HomeLabel()
    ensures TabLabel("Home · Alfred") == "Alfred"
  {
    assert OccursAt("Home · Alfred", "Home", 0);
  }

  lemma HistoryLabel()
    ensures TabLabel("History") == "History"
  {
    MismatchAt("History", "Home", 0, 1);
    MismatchAt("History", "Home", 1, 0);
    MismatchAt("History", "Home", 2, 0);
    MismatchAt("History", "Home", 3, 0);
  }

  /** The tabs of the app's navigation on the history page. */
  function HistoryTabs(): seq<Tab> {
    Tabs(NavItems, "/history")
  }

  lemma HomeTabOnHistory()
    ensures !HistoryTabs()[0].active && HistoryTabs()[0].labelText == "Alfred"
  {
    HomeLabel();
  }

  lemma HistoryTabOnHistory()
    ensures HistoryTabs()[1].active && HistoryTabs()[1].icon == "list" && HistoryTabs()[1].labelText == "History"
  {
    HistoryTabActive();
    ListIconFilled();
    HistoryLabel();
  }

  lemma OtherTabsOnHistory()
    ensures !HistoryTabs()[2].active && !HistoryTabs()[3].active
  {
    DashboardTabIdle();
    AlertsTabIdle();
  }

  /** On the history page of the app's navigation, the history tab alone is active, with its filled icon. */
  lemma HistoryPageTabs()
    ensures var tabs := Tabs(NavItems, "/history");
            !tabs[0].active && tabs[1].active && !tabs[2].active && !tabs[3].active &&
            tabs[1].icon == "list" && tabs[0].labelText == "Alfred" && tabs[1].labelText == "History"
  {
    HomeTabOnHistory();
    HistoryTabOnHistory();
    OtherTabsOnHistory();
  }
}
