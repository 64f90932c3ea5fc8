/** The applications page: the four applications, the map of which are
    enabled (kept in browser storage under `enabledApps`), its toggle,
    enable-all and disable-all handlers, and what each application card
    shows: enabled or not, dependencies met or not, switch usable or not. */
module Applications {

  import Lists

  datatype App = App(id: string, href: string, dependencies: seq<string>)

  /** The applications, in page order. */
  const Apps: seq<App> := [
    App("generation", "/dashboard", []),
    App("storage", "/storage", ["generation"]),
    App("consumption", "/consumption", ["generation", "storage"]),
    App("distribution", "/distribution", ["generation", "storage"])]

  const AppIds: set<string> := {"generation", "storage", "consumption", "distribution"}

  /** The enabled map: application id to flag. */
  type Flags = map<string, bool>

  /** What reading `enabledApps` from storage gives: nothing (no entry, or
      an empty one), a failure (the storage or the parse threw), or the
      stored map. */
  datatype Stored = Missing | Unreadable | Saved(flags: Flags)

  /** Every application with the same flag. */
  function AllSetTo(on: bool): (m: Flags)
    ensures m.Keys == AppIds
    ensures forall k :: k in m ==> m[k] == on
  {
    map id | id in AppIds :: on
  }

  /** The map the page starts from: the stored one if there is one, every
      application enabled when there is none or reading it failed. */
  function Load(stored: Stored): (m: Flags)
    ensures stored.Saved? ==> m == stored.flags
    ensures !stored.Saved? ==> m.Keys == AppIds && forall k :: k in m ==> m[k]
  {
    match stored
    case Saved(flags) => flags
    case _ => AllSetTo(true)
  }

  /** `toggleApp`: the key gets the negation of its value, a missing key
      counting as false, so it becomes true. Other keys keep their value. */
  function Toggle(m: Flags, id: string): (r: Flags)
    ensures r.Keys == m.Keys + {id}
    ensures id in m ==> r[id] == !m[id]
    ensures id !in m ==> r[id]
    ensures forall k :: k in m && k != id ==> r[k] == m[k]
  {
    m[id := !(id in m && m[id])]
  }

  /** `enableAll`: exactly the four applications, all enabled; whatever
      else the map held is gone. */
  function EnableAll(): (m: Flags)
    ensures m.Keys == AppIds && forall k :: k in m ==> m[k]
  {
    AllSetTo(true)
  }

  /** `disableAll`: exactly the four applications, all disabled. */
  function DisableAll(): (m: Flags)
    ensures m.Keys == AppIds && forall k :: k in m ==> !m[k]
  {
    AllSetTo(false)
  }

  /** The keys whose flag is true. */
  function EnabledKeys(m: Flags): (ks: set<string>)
    ensures forall k :: k in ks <==> k in m && m[k]
  {
    set k | k in m && m[k]
  }

  /** `enabledCount`: how many flags are true. */
  function EnabledCount(m: Flags): (n: nat)
    ensures n <= |m|
  {
    var ks := EnabledKeys(m);
    assert ks <= m.Keys;
    Lists.SubsetSize(ks, m.Keys);
    |ks|
  }

  /** The switch position of a card: the flag, a missing key showing as
      enabled. */
  predicate IsEnabled(m: Flags, id: string) {
    id in m ==> m[id]
  }

  /** Every dependency has a true flag; a missing key counts as
      disabled. */
  predicate DependenciesEnabled(m: Flags, app: App) {
    forall i :: 0 <= i < |app.dependencies| ==>
      app.dependencies[i] in m && m[app.dependencies[i]]
  }

  /** The switch of a card cannot be used when the application is off and
      a dependency is off too. */
  predicate SwitchDisabled(m: Flags, app: App) {
    !DependenciesEnabled(m, app) && !IsEnabled(m, app.id)
  }

  /** The "View Details" button of a card is disabled when the application
      is off. */
  predicate DetailsDisabled(m: Flags, app: App) {
    !IsEnabled(m, app.id)
  }

  // ---------------------------------------------------------------------
  // Properties

  /** Without a stored map, or when reading it fails, every card shows
      enabled with its dependencies met. */
  lemma DefaultsEnableEverything(stored: Stored, i: nat)
    requires !stored.Saved? && i < |Apps|
    ensures IsEnabled(Load(stored), Apps[i].id)
    ensures DependenciesEnabled(Load(stored), Apps[i])
    ensures !SwitchDisabled(Load(stored), Apps[i])
  {
  }

  /** Toggling a key that the map lacks stores `true`, so the card, which
      already showed enabled, shows the same. Toggling a present key flips
      what the card shows. */
  lemma ToggleDisplay(m: Flags, id: string)
    ensures id !in m ==> IsEnabled(Toggle(m, id), id) && IsEnabled(m, id)
    ensures id in m ==> IsEnabled(Toggle(m, id), id) == !IsEnabled(m, id)
  {
  }

  /** The "View Details" button is disabled exactly when the switch shows
      off; so a card whose switch cannot be used has its details disabled
      too, and toggling a present key flips whether they are. */
  lemma DetailsFollowSwitch(m: Flags, app: App)
    ensures DetailsDisabled(m, app) <==> !IsEnabled(m, app.id)
    ensures SwitchDisabled(m, app) ==> DetailsDisabled(m, app)
    ensures app.id in m ==> DetailsDisabled(Toggle(m, app.id), app) == !DetailsDisabled(m, app)
    ensures app.id !in m ==> !DetailsDisabled(m, app) && !DetailsDisabled(Toggle(m, app.id), app)
  {
  }

  /** Toggling twice restores a present key, and turns a missing one into
      an explicit `false`. */
  lemma ToggleTwice(m: Flags, id: string)
    ensures id in m ==> Toggle(Toggle(m, id), id) == m
    ensures id !in m ==> Toggle(Toggle(m, id), id) == m[id := false]
  {
  }

  /** An enabled application can always be switched off. */
  lemma TurningOffNeverBlocked(m: Flags, app: App)
    requires IsEnabled(m, app.id)
    ensures !SwitchDisabled(m, app)
  {
  }

  /** Toggling an application leaves every other card's switch where it
      was: switching a dependency off does not cascade to its dependents. */
  lemma NoCascade(m: Flags, id: string, other: string)
    requires other != id
    ensures IsEnabled(Toggle(m, id), other) == IsEnabled(m, other)
  {
  }

  /** With generation switched off and the rest on, storage stays enabled
      although its dependency is off. */
  lemma DependentOutlivesDependency()
    ensures var m := Toggle(EnableAll(), "generation");
      IsEnabled(m, "storage") && !DependenciesEnabled(m, Apps[1])
  {
    var m := Toggle(EnableAll(), "generation");
    assert Apps[1].dependencies[0] == "generation";
    assert !(Apps[1].dependencies[0] in m && m[Apps[1].dependencies[0]]);
  }

  /** From a stored map that lacks the application and its dependencies,
      the card shows enabled, yet reports a dependency off: a missing key
      is enabled for the switch and disabled for the dependency check. */
  lemma MissingKeysDisagree(m: Flags, i: nat)
    requires 1 <= i < |Apps| && Apps[i].id !in m && "generation" !in m
    ensures IsEnabled(m, Apps[i].id)
    ensures !DependenciesEnabled(m, Apps[i])
  {
    assert Apps[i].dependencies[0] == "generation";
  }

  /** Generation has no dependencies, so its switch is never disabled. */
  lemma GenerationNeverBlocked(m: Flags)
    ensures !SwitchDisabled(m, Apps[0])
  {
  }

  /** The count after enabling all is four, after disabling all zero. */
  lemma CountsAfterBulk()
    ensures EnabledCount(EnableAll()) == 4
    ensures EnabledCount(DisableAll()) == 0
  {
    assert EnabledKeys(EnableAll()) == AppIds;
    assert EnabledKeys(DisableAll()) == {};
  }

  /** Toggling a present key moves the count by one, down when it was on
      and up when it was off. */
  lemma ToggleCount(m: Flags, id: string)
    requires id in m
    ensures m[id] ==> EnabledCount(Toggle(m, id)) == EnabledCount(m) - 1
    ensures !m[id] ==> EnabledCount(Toggle(m, id)) == EnabledCount(m) + 1
  {
    if m[id] {
      assert EnabledKeys(Toggle(m, id)) == EnabledKeys(m) - {id};
    } else {
      assert EnabledKeys(Toggle(m, id)) == EnabledKeys(m) + {id};
    }
  }
}
