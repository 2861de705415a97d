/** The VSFileSearchView table: nearline files for a time window, each path
    shown as directory and file name, with a footer saying whether the list
    was cut short. */
module VSFileSearchView {
  import opened Common
  import opened Text
  import opened QueryString

  /** The component's props. */
  datatype Props = Props(startingTime: Option<string>, durationTime: Option<int>, visible: bool)

  /** One row of the `/api/nearline/files` response. */
  datatype FileEntry = FileEntry(vsid: string, path: string, timestamp: string,
                                 state: string, storage: string, membership: string)

  /** The response body: the total number of matches and the entries returned. */
  datatype FilesPage = FilesPage(entryCount: int, entries: seq<FileEntry>)

  datatype View = View(loading: bool, filesList: seq<FileEntry>, totalCount: int, lastError: Option<string>)

  const Initial: View := View(false, [], 0, None)

  const FilesEndpoint: string := "/api/nearline/files"

  // ---------------------------------------------------------------------------
  // The request

  /** `uriParams`: start and duration, both or neither. */
  function UriParams(p: Props): seq<Param>
  {
    if Truthy(p.startingTime) && TruthyNumber(p.durationTime)
    then [Param("start", p.startingTime.value), Param("duration", IntToString(p.durationTime.value))]
    else []
  }

  /** The URI `reloadData` requests, or `None` when it makes no request. */
  function RequestUri(p: Props): (uri: Option<string>)
    ensures uri.Some? <==> Truthy(p.startingTime) && TruthyNumber(p.durationTime)
  {
    var params := UriParams(p);
    if |params| > 0 then Some(FilesEndpoint + "?" + Join(PairTexts(params), '&')) else None
  }

  /** The request spelled out: start first, then duration. */
  lemma RequestUriText(p: Props)
    requires Truthy(p.startingTime) && TruthyNumber(p.durationTime)
    ensures RequestUri(p) == Some(FilesEndpoint + "?start=" + p.startingTime.value
                                  + "&duration=" + IntToString(p.durationTime.value))
  {
    var start := p.startingTime.value;
    var duration := IntToString(p.durationTime.value);
    var params := UriParams(p);
    var texts := PairTexts(params);
    assert texts[0] == "start=" + start by {
      assert texts[0] == "start" + "=" + start;
    }
    assert texts[1] == "duration=" + duration by {
      assert texts[1] == "duration" + "=" + duration;
    }
    assert |texts[1..]| == 1 && texts[1..][0] == texts[1];
    assert Join(texts, '&') == texts[0] + "&" + texts[1];
    calc {
      FilesEndpoint + "?" + Join(texts, '&');
      FilesEndpoint + "?" + (("start=" + start) + "&" + ("duration=" + duration));
      FilesEndpoint + "?start=" + start + "&duration=" + duration;
    }
  }

  /** The query of the request reads back as the two props, as long as the
      start time holds no `&`. */
  lemma RequestUriParses(p: Props)
    requires Truthy(p.startingTime) && TruthyNumber(p.durationTime)
    requires '&' !in p.startingTime.value
    ensures
      var uri := RequestUri(p).value;
      && uri[..|FilesEndpoint|] == FilesEndpoint
      && ParseQueryString(uri[|FilesEndpoint|..])
           == Some([Param("start", p.startingTime.value), Param("duration", IntToString(p.durationTime.value))])
  {
    var params := UriParams(p);
    RequestParamsUnambiguous(p);
    QueryStringRoundTrip(params);
    var query := ObjectToQueryString(Some(params));
    var joined := Join(PairTexts(params), '&');
    Associate(FilesEndpoint, "?", joined);
    assert (FilesEndpoint + query)[|FilesEndpoint|..] == query;
  }

  /** The two request params survive the unescaped rendering. */
  lemma RequestParamsUnambiguous(p: Props)
    requires Truthy(p.startingTime) && TruthyNumber(p.durationTime)
    requires '&' !in p.startingTime.value
    ensures Unambiguous(UriParams(p))
  {
    var duration := IntToString(p.durationTime.value);
    assert '&' !in duration by {
      IntToStringCharacters(p.durationTime.value);
      forall i | 0 <= i < |duration| ensures duration[i] != '&' {
      }
    }
    assert '=' !in "start" && '=' !in "duration";
  }

  lemma Associate(a: string, b: string, c: string)
    ensures a + b + c == a + (b + c)
  {
  }

  /** What one call of `reloadData` does: the new state and the request it issues, if any. */
  datatype Reload = Reload(view: View, request: Option<string>)

  function ReloadData(p: Props, v: View): (r: Reload)
    ensures r.request == RequestUri(p)
    ensures r.request.Some? ==> r.view == v.(loading := true)
    ensures r.request.None? ==> r.view == v
  {
    match RequestUri(p)
    case Some(uri) => Reload(v.(loading := true), Some(uri))
    case None => Reload(v, None)
  }

  /** The `componentDidUpdate` test. */
  predicate ShouldReload(prev: Props, cur: Props)
  {
    (prev.startingTime != cur.startingTime || prev.durationTime != cur.durationTime) && cur.visible
  }

  /** `componentDidUpdate`: reload only when the time window changed while the view is visible. */
  function DidUpdate(prev: Props, cur: Props, v: View): (r: Reload)
    ensures r.request.Some? ==> cur.visible && r.request == RequestUri(cur)
    ensures prev.startingTime == cur.startingTime && prev.durationTime == cur.durationTime ==> r == Reload(v, None)
    ensures !cur.visible ==> r == Reload(v, None)
    ensures ShouldReload(prev, cur) ==> r == ReloadData(cur, v)
  {
    if ShouldReload(prev, cur) then ReloadData(cur, v) else Reload(v, None)
  }

  /** How the request settles. A failure keeps the previous list and count. */
  function Loaded(v: View, response: Response<FilesPage>): (w: View)
    ensures !w.loading
    ensures response.Ok? ==>
              w == View(false, response.body.entries, response.body.entryCount, None)
    ensures response.Failed? ==>
              && w.lastError == Some(response.error)
              && w.filesList == v.filesList && w.totalCount == v.totalCount
  {
    match response
    case Ok(page) => v.(loading := false, lastError := None, totalCount := page.entryCount, filesList := page.entries)
    case Failed(e) => v.(loading := false, lastError := Some(e))
  }

  // ---------------------------------------------------------------------------
  // The footer

  const LimitedPrefix: string := "Results limited to "
  const AllShown: string := "All results shown"

  function Footer(v: View): string
  {
    if |v.filesList| < v.totalCount then LimitedPrefix + IntToString(|v.filesList|) else AllShown
  }

  /** The footer reports a cut-off list exactly when fewer rows arrived than
      matched, and then it names how many rows are shown. */
  lemma FooterReportsTruncation(v: View)
    ensures Footer(v) == AllShown <==> |v.filesList| >= v.totalCount
    ensures |v.filesList| < v.totalCount ==>
              && Footer(v)[..|LimitedPrefix|] == LimitedPrefix
              && AllDigits(Footer(v)[|LimitedPrefix|..])
              && ParseDecimal(Footer(v)[|LimitedPrefix|..]) == |v.filesList|
  {
    if |v.filesList| < v.totalCount {
      var f := Footer(v);
      assert f[0] == 'R';
      assert f[|LimitedPrefix|..] == Decimal(|v.filesList|);
      ParseDecimalInvertsDecimal(|v.filesList|);
    }
  }

  /** The view mounts with an empty list and a zero count, so the footer first
      says all results are shown, and a failed first load leaves it so under
      the error; a successful one replaces the list and count with the page's. */
  lemma MountLoadsWindow(p: Props, page: FilesPage, error: string)
    ensures Footer(Initial) == AllShown
    ensures ReloadData(p, Initial).request == RequestUri(p)
    ensures
      var w := Loaded(ReloadData(p, Initial).view, Failed(error));
      w == View(false, [], 0, Some(error)) && Footer(w) == AllShown
    ensures Loaded(ReloadData(p, Initial).view, Ok(page)) == View(false, page.entries, page.entryCount, None)
  {
  }

  // ---------------------------------------------------------------------------
  // splitFilePath: /^(.*)\/([^/]+)$/

  /** Characters the regex `.` does not match. */
  predicate IsLineTerminator(c: char)
  {
    c == '\n' || c == '\r' || c as int == 0x2028 || c as int == 0x2029
  }

  predicate NoLineTerminator(s: string)
  {
    forall i :: 0 <= i < |s| ==> !IsLineTerminator(s[i])
  }

  /** The regex matches the whole path with groups a and b. */
  predicate PathMatch(path: string, a: string, b: string)
  {
    path == a + "/" + b && NoLineTerminator(a) && |b| >= 1 && '/' !in b
  }

  /** Index of the last occurrence of c. */
  function LastIndexOf(s: string, c: char): (r: Option<nat>)
    ensures r.None? ==> c !in s
    ensures r.Some? ==> r.value < |s| && s[r.value] == c && c !in s[r.value + 1..]
  {
    if s == [] then None
    else if s[|s| - 1] == c then Some(|s| - 1)
    else LastIndexOf(s[..|s| - 1], c)
  }

  /** `[matches[1], matches[2]]` on a match, `["", fullpath]` otherwise. */
  datatype PathParts = PathParts(dir: string, name: string)

  function SplitFilePath(path: string): PathParts
  {
    match LastIndexOf(path, '/')
    case None => PathParts("", path)
    case Some(i) =>
      if i + 1 < |path| && NoLineTerminator(path[..i])
      then PathParts(path[..i], path[i + 1..])
      else PathParts("", path)
  }

  /** In any match the separating slash is the path's last slash. */
  lemma MatchSlashIsLast(path: string, a: string, b: string)
    requires PathMatch(path, a, b)
    ensures LastIndexOf(path, '/') == Some(|a|)
  {
    var r := LastIndexOf(path, '/');
    assert path[|a|] == '/';
  }

  /** `splitFilePath` returns the regex's two groups when the regex matches,
      and `["", path]` exactly when it does not. */
  lemma SplitFilePathFollowsRegex(path: string)
    ensures
      var r := SplitFilePath(path);
      || PathMatch(path, r.dir, r.name)
      || (r == PathParts("", path) && forall a, b :: !PathMatch(path, a, b))
  {
    var r := SplitFilePath(path);
    if !PathMatch(path, r.dir, r.name) {
      forall a, b ensures !PathMatch(path, a, b) {
        if PathMatch(path, a, b) {
          SplitFilePathRoundTrip(path, a, b);
        }
      }
      SplitFilePathSound(path);
    }
  }

  /** Whatever `splitFilePath` splits off is a match of the regex. */
  lemma SplitFilePathSound(path: string)
    ensures
      var r := SplitFilePath(path);
      r == PathParts("", path) || PathMatch(path, r.dir, r.name)
  {
    match LastIndexOf(path, '/')
    case None =>
    case Some(i) =>
      if i + 1 < |path| && NoLineTerminator(path[..i]) {
        assert path == path[..i] + "/" + path[i + 1..];
      }
  }

  /** A split path reassembles: directory, slash, file name, and the name has no slash. */
  lemma SplitFilePathRoundTrip(path: string, a: string, b: string)
    requires PathMatch(path, a, b)
    ensures SplitFilePath(path) == PathParts(a, b)
    ensures SplitFilePath(path).dir + "/" + SplitFilePath(path).name == path
  {
    MatchSlashIsLast(path, a, b);
    assert path[..|a|] == a;
    assert path[|a| + 1..] == b;
  }

  /** Without a slash the whole path is the file name. */
  lemma SplitFilePathNoSlash(path: string)
    requires '/' !in path
    ensures SplitFilePath(path) == PathParts("", path)
  {
  }

  /** A trailing slash leaves nothing for `[^/]+`, so nothing is split off. */
  lemma SplitFilePathTrailingSlash(prefix: string)
    ensures SplitFilePath(prefix + "/") == PathParts("", prefix + "/")
  {
    var path := prefix + "/";
    assert path[|path| - 1] == '/';
  }

  lemma SplitFilePathAbsolute()
    ensures SplitFilePath("/path/to/something.mp4") == PathParts("/path/to", "something.mp4")
  {
    SplitFilePathRoundTrip("/path/to/something.mp4", "/path/to", "something.mp4");
  }

  lemma SplitFilePathRelative()
    ensures SplitFilePath("path/to/something.mp4") == PathParts("path/to", "something.mp4")
  {
    SplitFilePathRoundTrip("path/to/something.mp4", "path/to", "something.mp4");
  }

  lemma SplitFilePathBare()
    ensures SplitFilePath("something.mp4") == PathParts("", "something.mp4")
  {
    SplitFilePathNoSlash("something.mp4");
  }
}
