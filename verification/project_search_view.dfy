/** The ProjectSearchView table: the projects holding media in a given status. */
module ProjectSearchView {
  import opened Common

  datatype Props = Props(visible: bool, projectStatus: Option<string>)

  /** One project of the `entry` array in the response. */
  datatype Project = Project(projectLabel: string, count: int, size: int)

  datatype View = View(loading: bool, projectsList: seq<Project>, totalCount: int, lastError: Option<string>)

  const Initial: View := View(false, [], 0, None)

  const UriPrefix: string := "/api/unclog/mediaStatus/"
  const UriSuffix: string := "/projects"

  /** The URI `reloadData` requests, or `None` when the status is unset or empty. */
  function RequestUri(p: Props): (uri: Option<string>)
    ensures uri.Some? <==> Truthy(p.projectStatus)
  {
    if Truthy(p.projectStatus) then Some(UriPrefix + p.projectStatus.value + UriSuffix) else None
  }

  /** The status a request URI names, if it has the expected shape. */
  function StatusOfUri(uri: string): Option<string>
  {
    if |uri| >= |UriPrefix| + |UriSuffix|
       && uri[..|UriPrefix|] == UriPrefix
       && uri[|uri| - |UriSuffix|..] == UriSuffix
    then Some(uri[|UriPrefix|..|uri| - |UriSuffix|])
    else None
  }

  /** The request URI always names the status it was built from. */
  lemma RequestUriNamesStatus(p: Props)
    requires Truthy(p.projectStatus)
    ensures StatusOfUri(RequestUri(p).value) == p.projectStatus
  {
    var s := p.projectStatus.value;
    var uri := UriPrefix + s + UriSuffix;
    assert uri[..|UriPrefix|] == UriPrefix;
    assert uri[|uri| - |UriSuffix|..] == UriSuffix;
    assert uri[|UriPrefix|..|uri| - |UriSuffix|] == s;
  }

  datatype Reload = Reload(view: View, request: Option<string>)

  /** `reloadData`: set `loading` and issue the request, or do nothing. */
  function ReloadData(p: Props, v: View): (r: Reload)
    ensures r.request == RequestUri(p)
    ensures r.view == if r.request.Some? then v.(loading := true) else v
  {
    match RequestUri(p)
    case Some(uri) => Reload(v.(loading := true), Some(uri))
    case None => Reload(v, None)
  }

  predicate ShouldReload(prev: Props, cur: Props)
  {
    prev.projectStatus != cur.projectStatus && cur.visible
  }

  /** `componentDidUpdate`: a new status reloads a visible view; nothing else does. */
  function DidUpdate(prev: Props, cur: Props, v: View): (r: Reload)
    ensures r.request.Some? ==> cur.visible && prev.projectStatus != cur.projectStatus && r.request == RequestUri(cur)
    ensures prev.projectStatus == cur.projectStatus ==> r == Reload(v, None)
    ensures !cur.visible ==> r == Reload(v, None)
    ensures ShouldReload(prev, cur) && Truthy(cur.projectStatus) ==>
              r.request.Some? && r.view.loading
    ensures ShouldReload(prev, cur) ==> r == ReloadData(cur, v)
  {
    if ShouldReload(prev, cur) then ReloadData(cur, v) else Reload(v, None)
  }

  /** How the request settles. On success the count is the length of the list
      received; on failure the previous list and count stay. */
  function Loaded(v: View, response: Response<seq<Project>>): (w: View)
    ensures !w.loading
    ensures response.Ok? ==>
              && w.projectsList == response.body
              && w.totalCount == |response.body|
              && w.lastError == None
    ensures response.Failed? ==>
              && w.lastError == Some(response.error)
              && w.projectsList == v.projectsList && w.totalCount == v.totalCount
  {
    match response
    case Ok(entries) => v.(loading := false, lastError := None, totalCount := |entries|, projectsList := entries)
    case Failed(e) => v.(loading := false, lastError := Some(e))
  }

  /** After any successful load the count matches the list. */
  lemma LoadedCountMatchesList(v: View, entries: seq<Project>)
    ensures Loaded(v, Ok(entries)).totalCount == |Loaded(v, Ok(entries)).projectsList|
  {
  }

  const MoreThanLimit: string := "More than 128 projects found"
  const AllShown: string := "All results shown"
  const ListLimit: nat := 128

  function Footer(v: View): (text: string)
    ensures text == MoreThanLimit || text == AllShown
  {
    if |v.projectsList| > ListLimit then MoreThanLimit else AllShown
  }

  /** The footer warns exactly when more than 128 projects are listed. */
  lemma FooterWarnsAboveLimit(v: View)
    ensures Footer(v) == MoreThanLimit <==> |v.projectsList| > 128
    ensures Footer(v) == AllShown <==> |v.projectsList| <= 128
  {
    assert MoreThanLimit[0] != AllShown[0];
  }

  /** The view mounts with an empty list, so the footer first says all results
      are shown; mounting requests the status in the props, and once that load
      succeeds the footer warns exactly when more than 128 projects came back. */
  lemma MountLoadsStatus(p: Props, entries: seq<Project>)
    ensures Footer(Initial) == AllShown
    ensures ReloadData(p, Initial).request == RequestUri(p)
    ensures
      var w := Loaded(ReloadData(p, Initial).view, Ok(entries));
      && w.totalCount == |entries|
      && (Footer(w) == MoreThanLimit <==> |entries| > 128)
  {
    FooterWarnsAboveLimit(Loaded(ReloadData(p, Initial).view, Ok(entries)));
  }
}
