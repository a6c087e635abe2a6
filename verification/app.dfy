/**
 * The application's state and how user events change it. The main
 * component holds the store and its own type selection; the sidebar holds a
 * second, separate selection that only drives which entry is highlighted.
 * Every state change replaces a value, as the framework's state setters do.
 */
module App {
  import opened Seqs
  import opened Content
  import opened Store

  /** The store, the selection the main view filters by, and the sidebar's highlighted entry. */
  datatype AppState = AppState(content: seq<ContentItem>, selectedType: Selection, sidebarSelected: Selection)

  /** The state on start-up: the seed store, and "all" in both selections. */
  function Init(): (a: AppState)
    ensures |a.content| == 6 && DistinctIds(a.content)
    ensures a.selectedType == All && a.sidebarSelected == All
  {
    MockContentIds();
    MockContentDistinct();
    AppState(MockContent(), All, All)
  }

  /** The cards the main view shows. */
  function FilteredContent(a: AppState): seq<ContentItem> {
    Visible(a.content, a.selectedType)
  }

  /** What the user can do. */
  datatype Event =
    | DeleteItem(id: string)
    | SidebarClick(sel: Selection)
    | ShareItem(item: ContentItem)
    | ShareBrain
    | AddContent

  /**
   * One event as the code is wired: a delete replaces the store by its
   * filtered copy, a sidebar click changes only the sidebar's own selection,
   * and sharing or the add placeholder change no state.
   */
  function Step(a: AppState, e: Event): (b: AppState)
    ensures b.selectedType == a.selectedType
    ensures e.DeleteItem? ==> b.content == Delete(a.content, e.id)
    ensures !e.DeleteItem? ==> b.content == a.content
    ensures e.SidebarClick? ==> b.sidebarSelected == e.sel
    ensures !e.SidebarClick? ==> b.sidebarSelected == a.sidebarSelected
  {
    match e
    case DeleteItem(id) => a.(content := Delete(a.content, id))
    case SidebarClick(sel) => a.(sidebarSelected := sel)
    case _ => a
  }

  /** A sequence of events, handled in order. */
  function Run(a: AppState, es: seq<Event>): AppState
    decreases |es|
  {
    if es == [] then a else Run(Step(a, es[0]), es[1..])
  }

  /**
   * As wired, no sequence of events changes the main view's selection, so
   * from start-up the visible list is always the whole store.
   */
  lemma {:induction false} SelectionNeverChanges(a: AppState, es: seq<Event>)
    ensures Run(a, es).selectedType == a.selectedType
    ensures a.selectedType == All ==> FilteredContent(Run(a, es)) == Run(a, es).content
    decreases |es|
  {
    if es != [] {
      SelectionNeverChanges(Step(a, es[0]), es[1..]);
    }
  }

  /** No sequence of events breaks the uniqueness of ids in the store. */
  lemma {:induction false} RunKeepsDistinctIds(a: AppState, es: seq<Event>)
    requires DistinctIds(a.content)
    ensures DistinctIds(Run(a, es).content)
    decreases |es|
  {
    if es != [] {
      if es[0].DeleteItem? {
        DeleteKeepsDistinct(a.content, es[0].id);
      }
      RunKeepsDistinctIds(Step(a, es[0]), es[1..]);
    }
  }

  /**
   * Clicking "Articles" in the sidebar on start-up highlights it, yet the
   * main view still shows all six seed items rather than the two articles.
   */
  lemma SidebarClickLeavesFilter()
    ensures var a := Step(Init(), SidebarClick(Only(Article)));
      a.sidebarSelected == Only(Article) &&
      |FilteredContent(a)| == 6 &&
      |Visible(a.content, a.sidebarSelected)| == 2
  {
    var s := MockContent();
    MockContentIds();
    MockContentKinds();
    ArticlesOfSeedShape(s);
  }

  /** The evidently intended wiring: one selection shared by the sidebar and the main view. */
  function StepShared(a: AppState, e: Event): (b: AppState)
    ensures b.content == Step(a, e).content
    ensures e.SidebarClick? ==> b.selectedType == e.sel && b.sidebarSelected == e.sel
    ensures !e.SidebarClick? ==> b.selectedType == a.selectedType && b.sidebarSelected == a.sidebarSelected
  {
    match e
    case SidebarClick(sel) => a.(selectedType := sel, sidebarSelected := sel)
    case _ => Step(a, e)
  }

  function RunShared(a: AppState, es: seq<Event>): AppState
    decreases |es|
  {
    if es == [] then a else RunShared(StepShared(a, es[0]), es[1..])
  }

  /** The highlighted sidebar entry is the selection the main view filters by. */
  predicate InSync(a: AppState) {
    a.selectedType == a.sidebarSelected
  }

  /**
   * With the shared selection, every sequence of events from a state in
   * sync keeps the sidebar and the main view in sync, so the cards shown are
   * exactly the store filtered by the highlighted entry.
   */
  lemma {:induction false} RunSharedInSync(a: AppState, es: seq<Event>)
    requires InSync(a)
    ensures InSync(RunShared(a, es))
    ensures FilteredContent(RunShared(a, es)) == Visible(RunShared(a, es).content, RunShared(a, es).sidebarSelected)
    decreases |es|
  {
    if es != [] {
      RunSharedInSync(StepShared(a, es[0]), es[1..]);
    }
  }

  /** With the shared selection, clicking "Articles" on start-up shows the two seed articles. */
  lemma SidebarClickFiltersShared()
    ensures var a := StepShared(Init(), SidebarClick(Only(Article)));
      InSync(a) && Ids(FilteredContent(a)) == ["1", "6"]
  {
    SeedArticles();
  }
}
