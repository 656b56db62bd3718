/**
 * The application shell: the page dispatcher run on every navigation
 * (setupPage) and the rule that decides which page element is visible
 * (the `active` bindings of render).
 *
 * The routing store derives the logical page name and the sub-view from the
 * navigation context; that derivation is not part of this model, so both
 * arrive here as strings. A missing sub-view (undefined) is written "": in
 * every test the shell makes, undefined and '' behave alike (both falsy,
 * both different from 'edit').
 */
module AppShell {
  import opened Wrappers

  /** The page modules setupPage can load with a dynamic import. */
  datatype PageModule =
    | Admin | AuditLogs | CourseVideos | CourseVideoPlayer | Clips | Folders | Groups
    | LiveEventsList | LiveEventsEdit | LiveEventsReporting
    | PresentationsList | PresentationsEdit
    | Settings | UploadVideo | Users | Visits | NotFound

  /** What setupPage does once the routing store holds (page, subView). */
  datatype Action =
    | Navigate(path: string)      // this._navigate(path); nothing is loaded
    | Load(target: PageModule)    // import() of one page module
    | FallBack                    // setPage('404'), then import() of the 404 module

  /** The page names the switch of setupPage has a case for. */
  const ListedPages: set<string> :=
    {"", "admin", "audit-logs", "course-videos", "clips", "folders", "groups",
     "live-events", "live-events-reporting", "presentations", "settings",
     "upload-video", "users", "visits"}

  /** JavaScript truthiness of a sub-view string. */
  predicate Truthy(subView: string) { subView != "" }

  /** The switch of setupPage. */
  function Dispatch(page: string, subView: string): (a: Action)
    ensures a.FallBack? <==> page !in ListedPages
    ensures a.Navigate? <==> page == ""
    ensures a.Navigate? ==> a.path == "/admin"
    ensures page == "course-videos" ==>
      a == Load(if Truthy(subView) then CourseVideoPlayer else CourseVideos)
    ensures page == "live-events" ==>
      a == Load(if subView == "edit" then LiveEventsEdit else LiveEventsList)
    ensures page == "presentations" ==>
      a == Load(if subView == "edit" then PresentationsEdit else PresentationsList)
    ensures page == "admin" ==> a == Load(Admin)
    ensures page == "audit-logs" ==> a == Load(AuditLogs)
    ensures page == "clips" ==> a == Load(Clips)
    ensures page == "folders" ==> a == Load(Folders)
    ensures page == "groups" ==> a == Load(Groups)
    ensures page == "live-events-reporting" ==> a == Load(LiveEventsReporting)
    ensures page == "settings" ==> a == Load(Settings)
    ensures page == "upload-video" ==> a == Load(UploadVideo)
    ensures page == "users" ==> a == Load(Users)
    ensures page == "visits" ==> a == Load(Visits)
  {
    if page == "" then Navigate("/admin")
    else if page == "admin" then Load(Admin)
    else if page == "audit-logs" then Load(AuditLogs)
    else if page == "course-videos" then
      (if Truthy(subView) then Load(CourseVideoPlayer) else Load(CourseVideos))
    else if page == "clips" then Load(Clips)
    else if page == "folders" then Load(Folders)
    else if page == "groups" then Load(Groups)
    else if page == "live-events" then
      (if subView == "edit" then Load(LiveEventsEdit) else Load(LiveEventsList))
    else if page == "live-events-reporting" then Load(LiveEventsReporting)
    else if page == "presentations" then
      (if subView == "edit" then Load(PresentationsEdit) else Load(PresentationsList))
    else if page == "settings" then Load(Settings)
    else if page == "upload-video" then Load(UploadVideo)
    else if page == "users" then Load(Users)
    else if page == "visits" then Load(Visits)
    else FallBack
  }

  /** The page the routing store holds once setupPage has run. */
  function StoredPage(page: string, subView: string): (stored: string)
    ensures stored == "404" <==> page !in ListedPages
    ensures page in ListedPages ==> stored == page
  {
    if Dispatch(page, subView).FallBack? then "404" else page
  }

  /** The modules setupPage imports for one dispatch, in order. */
  function Imported(a: Action): (ms: seq<PageModule>)
    ensures |ms| == (if a.Navigate? then 0 else 1)
    ensures forall m :: m in ms <==> (a.Load? && m == a.target) || (a.FallBack? && m == NotFound)
  {
    match a
    case Navigate(_) => []
    case Load(m) => [m]
    case FallBack => [NotFound]
  }

  /**
   * The `?active` binding of the element rendered for module m. Groups and
   * Users have a loader case in setupPage but no element in render.
   */
  predicate Active(m: PageModule, page: string, subView: string): (active: bool)
    ensures active <==> Shown(page, subView) == Some(m)
    ensures m == Groups || m == Users ==> !active
  {
    match m
    case Admin => page == "admin"
    case AuditLogs => page == "audit-logs"
    case CourseVideos => page == "course-videos" && !Truthy(subView)
    case CourseVideoPlayer => page == "course-videos" && Truthy(subView)
    case Clips => page == "clips"
    case Folders => page == "folders"
    case Groups => false
    case LiveEventsList => page == "live-events" && !Truthy(subView)
    case LiveEventsEdit => page == "live-events" && subView == "edit"
    case LiveEventsReporting => page == "live-events-reporting"
    case PresentationsList => page == "presentations" && !Truthy(subView)
    case PresentationsEdit => page == "presentations" && subView == "edit"
    case Settings => page == "settings"
    case UploadVideo => page == "upload-video"
    case Users => false
    case Visits => page == "visits"
    case NotFound => page == "404"
  }

  const AllModules: seq<PageModule> :=
    [Admin, AuditLogs, CourseVideos, CourseVideoPlayer, Clips, Folders, Groups,
     LiveEventsList, LiveEventsEdit, LiveEventsReporting,
     PresentationsList, PresentationsEdit,
     Settings, UploadVideo, Users, Visits, NotFound]

  /** Where each module stands in AllModules: every module is listed. */
  function Position(m: PageModule): (i: nat)
    ensures i < |AllModules| && AllModules[i] == m
  {
    match m
    case Admin => 0
    case AuditLogs => 1
    case CourseVideos => 2
    case CourseVideoPlayer => 3
    case Clips => 4
    case Folders => 5
    case Groups => 6
    case LiveEventsList => 7
    case LiveEventsEdit => 8
    case LiveEventsReporting => 9
    case PresentationsList => 10
    case PresentationsEdit => 11
    case Settings => 12
    case UploadVideo => 13
    case Users => 14
    case Visits => 15
    case NotFound => 16
  }

  /** The modules whose element render marks active. */
  function ActivePages(page: string, subView: string): set<PageModule> {
    set m | m in AllModules && Active(m, page, subView)
  }

  /**
   * Reference definition of the visible page, read off the page name first
   * and the sub-view second: the one element an observer sees, if any.
   */
  function Shown(page: string, subView: string): Option<PageModule> {
    if page == "admin" then Some(Admin)
    else if page == "audit-logs" then Some(AuditLogs)
    else if page == "course-videos" then
      Some(if Truthy(subView) then CourseVideoPlayer else CourseVideos)
    else if page == "clips" then Some(Clips)
    else if page == "folders" then Some(Folders)
    else if page == "live-events" then
      (if !Truthy(subView) then Some(LiveEventsList)
       else if subView == "edit" then Some(LiveEventsEdit) else None)
    else if page == "live-events-reporting" then Some(LiveEventsReporting)
    else if page == "presentations" then
      (if !Truthy(subView) then Some(PresentationsList)
       else if subView == "edit" then Some(PresentationsEdit) else None)
    else if page == "settings" then Some(Settings)
    else if page == "upload-video" then Some(UploadVideo)
    else if page == "visits" then Some(Visits)
    else if page == "404" then Some(NotFound)
    else None
  }

  /** The active set of render is exactly the reference's visible page. */
  lemma {:induction false} ActivePagesAreShown(page: string, subView: string)
    ensures ActivePages(page, subView) ==
      (if Shown(page, subView).Some? then {Shown(page, subView).value} else {})
  {
    forall m: PageModule
      ensures m in ActivePages(page, subView) <==> Shown(page, subView) == Some(m)
    {
      assert AllModules[Position(m)] == m;
    }
  }

  /** For every (page, subView) at most one page element is active. */
  lemma AtMostOneActive(page: string, subView: string)
    ensures |ActivePages(page, subView)| <= 1
    ensures forall m, n :: Active(m, page, subView) && Active(n, page, subView) ==> m == n
  {
    ActivePagesAreShown(page, subView);
    forall m, n | Active(m, page, subView) && Active(n, page, subView)
      ensures m == n
    {
      assert AllModules[Position(m)] == m && AllModules[Position(n)] == n;
    }
  }

  /**
   * The module setupPage loads and the element render shows agree: whatever
   * is visible after a dispatch is the loaded module; after the fallback the
   * 404 page is the one visible element; and nothing is visible exactly for
   * the redirect, for groups and users, and for live-events or presentations
   * with a sub-view other than 'edit'.
   */
  lemma {:induction false} DispatchAgreesWithRender(page: string, subView: string)
    ensures Dispatch(page, subView).FallBack? ==>
      ActivePages(StoredPage(page, subView), subView) == {NotFound}
    ensures Dispatch(page, subView).Load? ==>
      ActivePages(StoredPage(page, subView), subView) <= {Dispatch(page, subView).target}
    ensures ActivePages(StoredPage(page, subView), subView) == {} <==>
      (page == "" || page == "groups" || page == "users" ||
       ((page == "live-events" || page == "presentations") && Truthy(subView) && subView != "edit"))
  {
    ActivePagesAreShown(StoredPage(page, subView), subView);
  }

  /** The routing store's page and sub-view, as the shell reads them. */
  class RoutingStore {
    var page: string
    var subView: string

    constructor ()
      ensures page == "" && subView == ""
    {
      page := "";
      subView := "";
    }

    /** setRouteCtx: publishes the page and sub-view derived from a navigation. */
    method SetRouteCtx(page: string, subView: string)
      modifies this
      ensures this.page == page && this.subView == subView
    {
      this.page := page;
      this.subView := subView;
    }

    /** setPage: overrides the logical page, keeping the sub-view. */
    method SetPage(name: string)
      modifies this
      ensures page == name && subView == old(subView)
    {
      page := name;
    }
  }

  /**
   * The shell element. `imports` records every dynamic import() it issues
   * and `navigations` every path it passes to _navigate, in order.
   */
  class App {
    const store: RoutingStore
    var imports: seq<PageModule>
    var navigations: seq<string>

    constructor (store: RoutingStore)
      ensures this.store == store && imports == [] && navigations == []
    {
      this.store := store;
      imports := [];
      navigations := [];
    }

    /** render: the set of page elements whose `active` attribute is set. */
    function Render(): (active: set<PageModule>)
      reads this, store
      ensures |active| <= 1
      ensures store.page == "404" ==> active == {NotFound}
      ensures forall m :: m in active <==> Active(m, store.page, store.subView)
    {
      ActivePagesAreShown(store.page, store.subView);
      AtMostOneActive(store.page, store.subView);
      assert forall m :: AllModules[Position(m)] == m;
      ActivePages(store.page, store.subView)
    }

    /** setupPage for a navigation that resolves to (page, subView). */
    method SetupPage(page: string, subView: string)
      modifies this, store
      ensures store.page == StoredPage(page, subView) && store.subView == subView
      ensures page in ListedPages ==> store.page == page
      ensures imports == old(imports) + Imported(Dispatch(page, subView))
      ensures navigations == old(navigations) + (if page == "" then ["/admin"] else [])
      ensures Dispatch(page, subView).FallBack? ==> Render() == {NotFound}
      ensures Dispatch(page, subView).Load? ==> Render() <= {Dispatch(page, subView).target}
      ensures page == "" ==> Render() == {}
    {
      store.SetRouteCtx(page, subView);
      var action := Dispatch(page, subView);
      match action {
        case Navigate(path) =>
          navigations := navigations + [path];
        case Load(m) =>
          imports := imports + [m];
        case FallBack =>
          store.SetPage("404");
          imports := imports + [NotFound];
      }
      DispatchAgreesWithRender(page, subView);
    }
  }
}
