/** The footer shown on every dashboard page: four tabs, one per
    application, the tab of the current page highlighted, and each tab a
    link only while its application is enabled in the map the applications
    page stores. */
module Footer {

  import opened Wrappers
  import opened Text
  import Applications

  datatype Tab = Generation | Storage | Consumption | Distribution

  /** The tabs, in footer order. */
  const Tabs: seq<Tab> := [Generation, Storage, Consumption, Distribution]

  function TabId(t: Tab): string {
    match t
    case Generation => "generation"
    case Storage => "storage"
    case Consumption => "consumption"
    case Distribution => "distribution"
  }

  function TabHref(t: Tab): string {
    match t
    case Generation => "/dashboard"
    case Storage => "/storage"
    case Consumption => "/consumption"
    case Distribution => "/distribution"
  }

  // ---------------------------------------------------------------------
  // Which tab is active

  /** `getActiveTab`: the first of `/storage`, `/consumption`,
      `/distribution` the path starts with picks its tab; any other path
      picks generation. Only prefixes are compared. */
  function ActiveTab(path: string): (t: Tab)
    ensures t == Storage <==> StartsWith(path, "/storage")
    ensures t == Consumption <==> !StartsWith(path, "/storage") && StartsWith(path, "/consumption")
    ensures t == Distribution <==>
      !StartsWith(path, "/storage") && !StartsWith(path, "/consumption") && StartsWith(path, "/distribution")
    ensures t == Generation <==>
      !StartsWith(path, "/storage") && !StartsWith(path, "/consumption") && !StartsWith(path, "/distribution")
  {
    if StartsWith(path, "/storage") then Storage
    else if StartsWith(path, "/consumption") then Consumption
    else if StartsWith(path, "/distribution") then Distribution
    else Generation
  }

  /** `usePathname() || "/dashboard"`: a missing or empty path counts as
      the dashboard. */
  function CurrentPath(pathname: Option<string>): (p: string)
    ensures pathname.Some? && pathname.value != "" ==> p == pathname.value
    ensures pathname.None? || pathname.value == "" ==> p == "/dashboard"
  {
    match pathname
    case Some(s) => if s != "" then s else "/dashboard"
    case None => "/dashboard"
  }

  /** The tab the sticky footer highlights: generation when there is no
      path, otherwise the tab the path picks. */
  function StickyActiveTab(pathname: Option<string>): (t: Tab)
    ensures pathname.None? || pathname.value == "" ==> t == Generation
    ensures pathname.Some? && pathname.value != "" ==> t == ActiveTab(pathname.value)
  {
    assert "/dashboard"[1] != "/storage"[1] && "/dashboard"[1] != "/consumption"[1];
    assert "/dashboard"[2] != "/distribution"[2];
    ActiveTab(CurrentPath(pathname))
  }

  /** A missing path highlights generation, as does the dashboard itself;
      a page below a tab's path highlights that tab, and so does any path
      that merely begins with the same letters. */
  lemma StickyTabs(rest: string)
    ensures StickyActiveTab(None) == Generation
    ensures StickyActiveTab(Some("")) == Generation
    ensures ActiveTab("/storage" + rest) == Storage
    ensures ActiveTab("/consumption" + rest) == Consumption
    ensures ActiveTab("/distribution" + rest) == Distribution
  {
    assert ("/storage" + rest)[..8] == "/storage";
    var c := "/consumption" + rest;
    assert c[..12] == "/consumption" && c[1] != "/storage"[1];
    var d := "/distribution" + rest;
    assert d[..13] == "/distribution" && d[1] != "/storage"[1] && d[1] != "/consumption"[1];
  }

  // ---------------------------------------------------------------------
  // Which tabs are enabled

  /** Every tab enabled, the footer's starting state. */
  const Defaults: Applications.Flags :=
    map["generation" := true, "storage" := true, "consumption" := true, "distribution" := true]

  /** The flags the footer uses: the stored map spread over the defaults,
      so stored keys win and keys storage lacks stay enabled; with nothing
      stored, or a failed read, the defaults. */
  function Merged(stored: Applications.Stored): (m: Applications.Flags)
    ensures forall t: Tab :: TabId(t) in m
    ensures stored.Saved? ==> forall k :: k in stored.flags ==> k in m && m[k] == stored.flags[k]
    ensures forall t: Tab :: !(stored.Saved? && TabId(t) in stored.flags) ==> m[TabId(t)]
  {
    match stored
    case Saved(flags) => Defaults + flags
    case _ => Defaults
  }

  /** What a tab renders as: a link to its page, or an inert,
      aria-disabled wrapper; either one highlighted or not. */
  datatype TabView = Link(href: string, highlighted: bool) | Inert(highlighted: bool)

  /** The footer's tabs, in order, given the flags and the active tab
      (generation when none is passed). */
  function Render(flags: Applications.Flags, activeTab: Option<Tab>): (views: seq<TabView>)
    requires forall t: Tab :: TabId(t) in flags
    ensures |views| == |Tabs|
    ensures forall i :: 0 <= i < |Tabs| ==>
      && (views[i].Link? <==> flags[TabId(Tabs[i])])
      && (views[i].Link? ==> views[i].href == TabHref(Tabs[i]))
      && (views[i].highlighted <==> Tabs[i] == activeTab.GetOr(Generation))
  {
    var active := activeTab.GetOr(Generation);
    seq(|Tabs|, i requires 0 <= i < |Tabs| =>
      if flags[TabId(Tabs[i])] then Link(TabHref(Tabs[i]), Tabs[i] == active)
      else Inert(Tabs[i] == active))
  }

  // ---------------------------------------------------------------------
  // Properties

  /** Exactly one tab is highlighted, whether it is a link or not. */
  lemma ExactlyOneHighlighted(flags: Applications.Flags, activeTab: Option<Tab>)
    requires forall t: Tab :: TabId(t) in flags
    ensures var views := Render(flags, activeTab);
      && (exists i :: 0 <= i < |views| && views[i].highlighted)
      && (forall i, j :: 0 <= i < |views| && 0 <= j < |views| && views[i].highlighted && views[j].highlighted ==> i == j)
  {
    var views := Render(flags, activeTab);
    var active := activeTab.GetOr(Generation);
    var k := match active
      case Generation => 0 case Storage => 1 case Consumption => 2 case Distribution => 3;
    assert Tabs[k] == active;
    assert views[k].highlighted;
  }

  /** The footer tabs are the applications of the applications page, with
      the same ids and pages, in the same order. */
  lemma TabsAreApplications()
    ensures |Tabs| == |Applications.Apps|
    ensures forall i :: 0 <= i < |Tabs| ==>
      TabId(Tabs[i]) == Applications.Apps[i].id && TabHref(Tabs[i]) == Applications.Apps[i].href
  {
  }

  /** The footer treats every tab as the applications page shows its
      application's switch: a missing key is enabled on both, a stored
      flag decides on both. */
  lemma FooterAgreesWithSwitches(stored: Applications.Stored, t: Tab)
    ensures Merged(stored)[TabId(t)] == Applications.IsEnabled(Applications.Load(stored), TabId(t))
  {
  }

  /** After "Disable All" is stored, every footer tab is inert; after
      "Enable All", every tab is a link. */
  lemma BulkActionsReachFooter(activeTab: Option<Tab>)
    ensures var views := Render(Merged(Applications.Saved(Applications.DisableAll())), activeTab);
      forall i :: 0 <= i < |views| ==> views[i].Inert?
    ensures var views := Render(Merged(Applications.Saved(Applications.EnableAll())), activeTab);
      forall i :: 0 <= i < |views| ==> views[i].Link?
  {
  }
}
