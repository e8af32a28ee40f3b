/**
 * Tab navigation of the application: the navigation bar offers four tab
 * labels, and `renderContent` picks the screen for the active tab, falling
 * back to the Home screen for any other value.
 */
module Navigation {

  datatype Screen = HomeScreen | TutorScreen | StoreScreen | VisitTurkeyScreen

  /** The labels of the navigation bar, in display order. */
  const Tabs: seq<string> := ["Home", "Tulu Tutor", "Tulu Store", "Visit Turkey"]

  /** The tab that `App` starts on. */
  const InitialTab: string := "Home"

  /** The label of the navigation button that leads to a screen. */
  function TabLabel(screen: Screen): (tab: string)
    ensures tab in Tabs
  {
    match screen
    case HomeScreen => Tabs[0]
    case TutorScreen => Tabs[1]
    case StoreScreen => Tabs[2]
    case VisitTurkeyScreen => Tabs[3]
  }

  /** `renderContent()`: the `switch` on the active tab with its `default` case. */
  function RenderContent(activeTab: string): (screen: Screen)
    ensures activeTab in Tabs ==> TabLabel(screen) == activeTab
    ensures activeTab !in Tabs ==> screen == HomeScreen
  {
    match activeTab
    case "Home" => HomeScreen
    case "Tulu Tutor" => TutorScreen
    case "Tulu Store" => StoreScreen
    case "Visit Turkey" => VisitTurkeyScreen
    case _ => HomeScreen
  }

  /** Every screen is reached by its own button, and different buttons lead to different screens. */
  lemma {:induction false} TabsSelectDistinctScreens()
    ensures forall s: Screen :: RenderContent(TabLabel(s)) == s
    ensures forall i, j :: 0 <= i < j < |Tabs| ==> RenderContent(Tabs[i]) != RenderContent(Tabs[j])
  {
    forall s: Screen ensures RenderContent(TabLabel(s)) == s {
      match s
      case HomeScreen =>
      case TutorScreen =>
      case StoreScreen =>
      case VisitTurkeyScreen =>
    }
  }

  /** The application opens on the Home screen. */
  lemma StartsOnHome()
    ensures RenderContent(InitialTab) == HomeScreen
  {
  }
}
