/** The admin API: the requests that the dashboard and the client build, and the router that reads them. */
module AdminRouter {
  import opened Common
  import opened GoStrings
  import opened UrlPath

  datatype Verb = GET | POST | PATCH | DELETE | OTHER(tag: string)

  datatype Command =
    | Page
    | Metrics
    | Stream
    | Upload
    | Logs(name: string)
    | StopDeploy(name: string)
    | DismissBuild(name: string)
    | Disconnect(id: string)
    | AddTunnel(id: string)
    | SetDir(id: string, name: string)
    | Promote(id: string, name: string)
    | RemoveTunnel(id: string, name: string)

  // ----- requests

  const ROOT := "/_2nnel"

  function VerbOf(c: Command): Verb {
    match c
    case Page => GET
    case Metrics => GET
    case Stream => GET
    case Logs(_) => GET
    case Upload => POST
    case Disconnect(_) => POST
    case AddTunnel(_) => POST
    case Promote(_, _) => POST
    case SetDir(_, _) => PATCH
    case StopDeploy(_) => DELETE
    case DismissBuild(_) => DELETE
    case RemoveTunnel(_, _) => DELETE
  }

  function Segments(c: Command): seq<string> {
    match c
    case Page => ["_2nnel", ""]
    case Metrics => ["_2nnel", "metrics"]
    case Stream => ["_2nnel", "stream"]
    case Upload => ["_2nnel", "promote"]
    case Logs(name) => ["_2nnel", "promote", name, "logs"]
    case StopDeploy(name) => ["_2nnel", "promote", name]
    case DismissBuild(name) => ["_2nnel", "builds", name]
    case Disconnect(id) => ["_2nnel", "clients", id, "disconnect"]
    case AddTunnel(id) => ["_2nnel", "clients", id, "tunnels"]
    case SetDir(id, name) => ["_2nnel", "clients", id, "tunnels", name, "dir"]
    case Promote(id, name) => ["_2nnel", "clients", id, "tunnels", name, "promote"]
    case RemoveTunnel(id, name) => ["_2nnel", "clients", id, "tunnels", name]
  }

  /** The path below the admin root. */
  function Local(c: Command): string {
    match c
    case Page => "/"
    case Metrics => "/metrics"
    case Stream => "/stream"
    case Upload => "/promote"
    case Logs(name) => "/promote/" + name + "/logs"
    case StopDeploy(name) => "/promote/" + name
    case DismissBuild(name) => "/builds/" + name
    case Disconnect(id) => "/clients/" + id + "/disconnect"
    case AddTunnel(id) => "/clients/" + id + "/tunnels"
    case SetDir(id, name) => "/clients/" + id + "/tunnels/" + name + "/dir"
    case Promote(id, name) => "/clients/" + id + "/tunnels/" + name + "/promote"
    case RemoveTunnel(id, name) => "/clients/" + id + "/tunnels/" + name
  }

  // ----- the router

  const TUNNELS := "/tunnels/"

  /** strings.SplitN(s, sep, 2) when it yields two parts. */
  function Cut(s: string, sep: string): (r: Option<(string, string)>)
    ensures r.Some? ==> s == r.value.0 + sep + r.value.1
  {
    var k := Index(s, sep);
    if k < 0 then None
    else
      assert s[k..k + |sep|] == sep;
      Some((s[..k], s[k + |sep|..]))
  }

  function Middle(path: string, prefix: string, suffix: string): string {
    TrimSuffix(TrimPrefix(path, prefix), suffix)
  }

  /** `None` stands for 404. The cases are tried in this order. */
  function Dispatch(verb: Verb, requested: string): Option<Command> {
    var path := TrimPrefix(requested, ROOT);
    if path == "" || path == "/" then Some(Page)
    else if path == "/metrics" then Some(Metrics)
    else if path == "/stream" then Some(Stream)
    else if path == "/promote" && verb == POST then Some(Upload)
    else if HasPrefix(path, "/promote/") && HasSuffix(path, "/logs") && verb == GET then
      Some(Logs(Middle(path, "/promote/", "/logs")))
    else if HasPrefix(path, "/promote/") && verb == DELETE then Some(StopDeploy(TrimPrefix(path, "/promote/")))
    else if HasPrefix(path, "/builds/") && verb == DELETE then Some(DismissBuild(TrimPrefix(path, "/builds/")))
    else if HasPrefix(path, "/clients/") && HasSuffix(path, "/disconnect") && verb == POST then
      Some(Disconnect(Middle(path, "/clients/", "/disconnect")))
    else if HasPrefix(path, "/clients/") && HasSuffix(path, "/tunnels") && verb == POST then
      Some(AddTunnel(Middle(path, "/clients/", "/tunnels")))
    else if HasPrefix(path, "/clients/") && Contains(path, TUNNELS) && HasSuffix(path, "/dir") && verb == PATCH then
      match Cut(TrimPrefix(path, "/clients/"), TUNNELS)
      case Some((id, rest)) => Some(SetDir(id, TrimSuffix(rest, "/dir")))
      case None => None
    else if HasPrefix(path, "/clients/") && Contains(path, TUNNELS) && HasSuffix(path, "/promote") && verb == POST then
      match Cut(TrimPrefix(path, "/clients/"), TUNNELS)
      case Some((id, rest)) => Some(Promote(id, TrimSuffix(rest, "/promote")))
      case None => None
    else if HasPrefix(path, "/clients/") && Contains(path, TUNNELS) && verb == DELETE then
      match Cut(TrimPrefix(path, "/clients/"), TUNNELS)
      case Some((id, rest)) => Some(RemoveTunnel(id, rest))
      case None => None
    else None
  }

  /** The handler that a request reaches, when the multiplexer does not redirect it first. */
  function Reached(verb: Verb, url: string): Option<Command> {
    if !IsClean(url) then None
    else match PathOf(url) case Some(path) => Dispatch(verb, path) case None => None
  }

  // ----- prefixes and suffixes

  lemma Affixes(p: string, m: string, t: string)
    ensures HasPrefix(p + m + t, p) && HasSuffix(p + m + t, t)
    ensures TrimPrefix(p + m + t, p) == m + t && TrimSuffix(m + t, t) == m
    ensures Middle(p + m + t, p, t) == m
  {
    assert (p + m + t)[|p|..] == m + t;
    assert (m + t)[..|m|] == m && (m + t)[|m|..] == t;
    assert (p + m + t)[|p| + |m|..] == t;
  }

  lemma OtherEnd(a: string, t: string, u: string)
    requires t != "" && u != "" && t[|t| - 1] != u[|u| - 1]
    ensures !HasSuffix(a + t, u)
  {
    var s := a + t;
    assert s[|s| - 1] == t[|t| - 1];
    if |u| <= |s| {
      assert s[|s| - |u|..][|u| - 1] == s[|s| - 1];
    }
  }

  // ----- the first "/tunnels/"

  /** An id that cannot be mistaken for a longer path. */
  predicate Separable(id: string) {
    !Contains(id + "/tunnels", TUNNELS)
  }

  lemma SeparableWithoutSlash(id: string)
    requires '/' !in id
    ensures Separable(id)
  {
    var s := id + "/tunnels";
    forall j: nat
      ensures !OccursAt(s, TUNNELS, j)
    {
      if j + 9 <= |s| {
        assert s[j] == id[j] && id[j] in id;
        assert s[j..j + 9][0] != '/';
      }
    }
  }

  lemma CutShape(id: string, rest: string)
    ensures var r := Cut(id + TUNNELS + rest, TUNNELS);
            r.Some? && (r == Some((id, rest)) <==> Separable(id)) && (r.value.0 == id <==> Separable(id))
  {
    var s, front := id + TUNNELS + rest, id + "/tunnels";
    var k, m := Index(s, TUNNELS), Index(front, TUNNELS);
    assert s[|id|..|id| + 9] == TUNNELS;
    assert OccursAt(s, TUNNELS, |id|);
    assert 0 <= k <= |id|;
    forall j: nat | OccursAt(front, TUNNELS, j)
      ensures j < |id| && OccursAt(s, TUNNELS, j)
    {
      assert s[j..j + 9] == front[j..j + 9];
    }
    if k < |id| {
      assert s[k..k + 9] == front[k..k + 9];
      assert OccursAt(front, TUNNELS, k);
      assert |s[..k]| == k;
    } else {
      assert s[..k] == id && s[k + 9..] == rest;
      assert m < 0;
    }
  }

  // ----- the router undoes the requests

  /** The id and name of a command are found again in its path. */
  predicate Splits(c: Command) {
    match c
    case SetDir(id, _) => Separable(id)
    case Promote(id, _) => Separable(id)
    case RemoveTunnel(id, _) => Separable(id)
    case _ => true
  }

  lemma ShortPaths(c: Command)
    requires c.Page? || c.Metrics? || c.Stream? || c.Upload?
    ensures Dispatch(VerbOf(c), ROOT + Local(c)) == Some(c)
  {
    assert (ROOT + Local(c))[|ROOT|..] == Local(c);
  }

  lemma LogsPath(name: string)
    ensures Dispatch(GET, ROOT + Local(Logs(name))) == Some(Logs(name))
  {
    var path := Local(Logs(name));
    assert (ROOT + path)[|ROOT|..] == path;
    assert path[9 - 1] == '/';
    Affixes("/promote/", name, "/logs");
    hide HasSuffix, Middle, Contains, TrimSuffix;
  }

  lemma NamePaths(c: Command)
    requires c.StopDeploy? || c.DismissBuild?
    ensures Dispatch(VerbOf(c), ROOT + Local(c)) == Some(c)
  {
    assert (ROOT + Local(c))[|ROOT|..] == Local(c);
    match c
    case StopDeploy(name) => Affixes("/promote/", name, "");
    case DismissBuild(name) =>
      Affixes("/builds/", name, "");
      assert Local(c)[1] == 'b';
  }

  lemma ClientPaths(c: Command)
    requires c.Disconnect? || c.AddTunnel?
    ensures Dispatch(VerbOf(c), ROOT + Local(c)) == Some(c)
  {
    var path := Local(c);
    assert (ROOT + path)[|ROOT|..] == path;
    match c
    case Disconnect(id) => Affixes("/clients/", id, "/disconnect");
    case AddTunnel(id) =>
      Affixes("/clients/", id, "/tunnels");
      OtherEnd("/clients/" + id, "/tunnels", "/disconnect");
  }

  lemma TunnelPath(id: string, name: string, end: string, path: string)
    requires path == "/clients/" + id + TUNNELS + name + end
    ensures HasPrefix(path, "/clients/") && Contains(path, TUNNELS)
    ensures TrimPrefix(path, "/clients/") == id + TUNNELS + (name + end)
    ensures HasSuffix(path, end) && TrimSuffix(name + end, end) == name
  {
    var rest := id + TUNNELS + (name + end);
    assert path == "/clients/" + rest;
    assert path[9..] == rest;
    assert path[9 + |id|..9 + |id| + 9] == TUNNELS;
    assert OccursAt(path, TUNNELS, 9 + |id|);
    Affixes("/clients/" + id + TUNNELS, name, end);
  }

  lemma SetDirCase(path: string)
    requires HasPrefix(path, "/clients/") && Contains(path, TUNNELS) && HasSuffix(path, "/dir")
    ensures Dispatch(PATCH, ROOT + path) ==
            match Cut(TrimPrefix(path, "/clients/"), TUNNELS)
            case Some((id, rest)) => Some(SetDir(id, TrimSuffix(rest, "/dir")))
            case None => None
  {
    hide Cut, Contains, HasSuffix, TrimSuffix, Middle;
    assert (ROOT + path)[|ROOT|..] == path;
    assert path[1] == 'c';
  }

  lemma SetDirPath(id: string, name: string)
    ensures Dispatch(PATCH, ROOT + Local(SetDir(id, name))) == Some(SetDir(id, name)) <==> Separable(id)
  {
    hide Dispatch, Cut, Separable, Contains, HasSuffix, HasPrefix, TrimSuffix, TrimPrefix;
    var path := Local(SetDir(id, name));
    TunnelPath(id, name, "/dir", path);
    CutShape(id, name + "/dir");
    SetDirCase(path);
  }

  lemma PromoteCase(path: string)
    requires HasPrefix(path, "/clients/") && Contains(path, TUNNELS) && HasSuffix(path, "/promote")
    requires !HasSuffix(path, "/disconnect") && !HasSuffix(path, "/tunnels")
    ensures Dispatch(POST, ROOT + path) ==
            match Cut(TrimPrefix(path, "/clients/"), TUNNELS)
            case Some((id, rest)) => Some(Promote(id, TrimSuffix(rest, "/promote")))
            case None => None
  {
    hide Cut, Contains, HasSuffix, TrimSuffix, Middle;
    assert (ROOT + path)[|ROOT|..] == path;
    assert path[1] == 'c';
  }

  lemma PromotePath(id: string, name: string)
    ensures Dispatch(POST, ROOT + Local(Promote(id, name))) == Some(Promote(id, name)) <==> Separable(id)
  {
    hide Dispatch, Cut, Separable, Contains, HasSuffix, HasPrefix, TrimSuffix, TrimPrefix;
    var path := Local(Promote(id, name));
    TunnelPath(id, name, "/promote", path);
    CutShape(id, name + "/promote");
    OtherEnd("/clients/" + id + TUNNELS + name, "/promote", "/disconnect");
    OtherEnd("/clients/" + id + TUNNELS + name, "/promote", "/tunnels");
    PromoteCase(path);
  }

  lemma RemovePath(id: string, name: string)
    ensures Dispatch(DELETE, ROOT + Local(RemoveTunnel(id, name))) == Some(RemoveTunnel(id, name)) <==> Separable(id)
  {
    hide Dispatch, Cut, Separable, Contains, HasSuffix, HasPrefix, TrimPrefix;
    var path := Local(RemoveTunnel(id, name));
    assert name + "" == name && path + "" == path;
    TunnelPath(id, name, "", path);
    CutShape(id, name);
    RemoveCase(path);
  }

  lemma RemoveCase(path: string)
    requires HasPrefix(path, "/clients/") && Contains(path, TUNNELS)
    ensures Dispatch(DELETE, ROOT + path) ==
            match Cut(TrimPrefix(path, "/clients/"), TUNNELS)
            case Some((id, rest)) => Some(RemoveTunnel(id, rest))
            case None => None
  {
    hide Cut, Contains, HasSuffix, Middle;
    assert (ROOT + path)[|ROOT|..] == path;
    assert path[1] == 'c';
  }

  lemma DispatchUndoesPath(c: Command)
    ensures Dispatch(VerbOf(c), ROOT + Local(c)) == Some(c) <==> Splits(c)
  {
    hide Dispatch, Separable, Local;
    match c
    case SetDir(id, name) => SetDirPath(id, name);
    case Promote(id, name) => PromotePath(id, name);
    case RemoveTunnel(id, name) => RemovePath(id, name);
    case Logs(name) => LogsPath(name);
    case StopDeploy(_) => NamePaths(c);
    case DismissBuild(_) => NamePaths(c);
    case Disconnect(_) => ClientPaths(c);
    case AddTunnel(_) => ClientPaths(c);
    case _ => ShortPaths(c);
  }

  /** The requests for deployed apps and builds, as they are written. */
  lemma AppRequests(name: string)
    ensures Dispatch(POST, "/_2nnel/promote") == Some(Upload)
    ensures Dispatch(GET, "/_2nnel/promote/" + name + "/logs") == Some(Logs(name))
    ensures Dispatch(DELETE, "/_2nnel/promote/" + name) == Some(StopDeploy(name))
    ensures Dispatch(DELETE, "/_2nnel/builds/" + name) == Some(DismissBuild(name))
  {
    hide Dispatch;
    DispatchUndoesPath(Upload);
    DispatchUndoesPath(Logs(name));
    DispatchUndoesPath(StopDeploy(name));
    DispatchUndoesPath(DismissBuild(name));
    assert ROOT + "/promote" == "/_2nnel/promote";
    assert ROOT + ("/promote/" + name) == "/_2nnel/promote/" + name;
    assert ROOT + ("/promote/" + name + "/logs") == "/_2nnel/promote/" + name + "/logs";
    assert ROOT + ("/builds/" + name) == "/_2nnel/builds/" + name;
  }

  /** The requests for a client. */
  lemma ClientRequests(id: string)
    ensures Dispatch(POST, "/_2nnel/clients/" + id + "/disconnect") == Some(Disconnect(id))
    ensures Dispatch(POST, "/_2nnel/clients/" + id + "/tunnels") == Some(AddTunnel(id))
  {
    hide Dispatch;
    DispatchUndoesPath(Disconnect(id));
    DispatchUndoesPath(AddTunnel(id));
    assert ROOT + ("/clients/" + id + "/disconnect") == "/_2nnel/clients/" + id + "/disconnect";
    assert ROOT + ("/clients/" + id + "/tunnels") == "/_2nnel/clients/" + id + "/tunnels";
  }

  /** The requests for a client's tunnel. */
  lemma TunnelRequests(id: string, name: string)
    requires '/' !in id
    ensures Dispatch(PATCH, "/_2nnel/clients/" + id + "/tunnels/" + name + "/dir") == Some(SetDir(id, name))
    ensures Dispatch(POST, "/_2nnel/clients/" + id + "/tunnels/" + name + "/promote") == Some(Promote(id, name))
    ensures Dispatch(DELETE, "/_2nnel/clients/" + id + "/tunnels/" + name) == Some(RemoveTunnel(id, name))
  {
    hide Dispatch, Separable;
    SeparableWithoutSlash(id);
    SetDirPath(id, name);
    PromotePath(id, name);
    RemovePath(id, name);
    TunnelText(id, name, "/dir");
    TunnelText(id, name, "/promote");
    TunnelText(id, name, "");
  }

  lemma TunnelText(id: string, name: string, end: string)
    ensures ROOT + ("/clients/" + id + "/tunnels/" + name + end) == "/_2nnel/clients/" + id + "/tunnels/" + name + end
    ensures end == "" ==> ROOT + ("/clients/" + id + "/tunnels/" + name) == "/_2nnel/clients/" + id + "/tunnels/" + name
  {
  }

  lemma Extend(cs: seq<string>, below: string, segment: string)
    requires Path(cs) == ROOT + below
    ensures Path(cs + [segment]) == ROOT + (below + ("/" + segment))
  {
    PathLast(cs, segment);
    assert ROOT + below + ("/" + segment) == ROOT + (below + ("/" + segment));
  }

  lemma Under(a: string, name: string)
    ensures Path(["_2nnel", a]) == ROOT + ("/" + a)
    ensures Path(["_2nnel", a, name]) == ROOT + ("/" + a + "/" + name)
  {
    Extend(["_2nnel"], "", a);
    assert ["_2nnel"] + [a] == ["_2nnel", a] && "" + ("/" + a) == "/" + a;
    Extend(["_2nnel", a], "/" + a, name);
    assert ["_2nnel", a] + [name] == ["_2nnel", a, name];
    assert "/" + a + ("/" + name) == "/" + a + "/" + name;
  }

  lemma FixedSegments(c: Command)
    requires c.Page? || c.Metrics? || c.Stream? || c.Upload?
    ensures Path(Segments(c)) == ROOT + Local(c)
  {
    hide Path;
    match c
    case Page => Under("", "");
    case Metrics => Under("metrics", "");
    case Stream => Under("stream", "");
    case Upload => Under("promote", "");
  }

  lemma ThirdSegment(a: string, name: string, end: string)
    ensures Path(["_2nnel", a, name]) == ROOT + ("/" + a + "/" + name)
    ensures Path(["_2nnel", a, name, end]) == ROOT + ("/" + a + "/" + name + "/" + end)
  {
    hide Path;
    Under(a, name);
    var below := "/" + a + "/" + name;
    Extend(["_2nnel", a, name], below, end);
    assert ["_2nnel", a, name] + [end] == ["_2nnel", a, name, end];
    assert below + ("/" + end) == below + "/" + end;
  }

  lemma PromoteSegments(name: string)
    ensures Path(Segments(StopDeploy(name))) == ROOT + Local(StopDeploy(name))
    ensures Path(Segments(Logs(name))) == ROOT + Local(Logs(name))
  {
    hide Path;
    ThirdSegment("promote", name, "logs");
    assert "/" + "promote" + "/" == "/promote/";
    assert "/promote/" + name + "/" + "logs" == "/promote/" + name + "/logs";
  }

  lemma BuildSegments(name: string)
    ensures Path(Segments(DismissBuild(name))) == ROOT + Local(DismissBuild(name))
  {
    hide Path;
    Under("builds", name);
    assert "/" + "builds" + "/" == "/builds/";
  }

  lemma ClientSegments(id: string)
    ensures Path(Segments(Disconnect(id))) == ROOT + Local(Disconnect(id))
    ensures Path(Segments(AddTunnel(id))) == ROOT + Local(AddTunnel(id))
  {
    hide Path;
    ThirdSegment("clients", id, "disconnect");
    ThirdSegment("clients", id, "tunnels");
    assert "/" + "clients" + "/" == "/clients/";
    assert "/clients/" + id + "/" + "disconnect" == "/clients/" + id + "/disconnect";
    assert "/clients/" + id + "/" + "tunnels" == "/clients/" + id + "/tunnels";
  }

  lemma RemoveSegments(id: string, name: string)
    ensures Path(Segments(RemoveTunnel(id, name))) == ROOT + Local(RemoveTunnel(id, name))
  {
    ClientSegments(id);
    hide Path;
    var above := "/clients/" + id + "/tunnels";
    Extend(["_2nnel", "clients", id, "tunnels"], above, name);
    assert ["_2nnel", "clients", id, "tunnels"] + [name] == ["_2nnel", "clients", id, "tunnels", name];
    assert above + ("/" + name) == "/clients/" + id + "/tunnels/" + name;
  }

  lemma DeepSegments(id: string, name: string)
    ensures Path(Segments(SetDir(id, name))) == ROOT + Local(SetDir(id, name))
    ensures Path(Segments(Promote(id, name))) == ROOT + Local(Promote(id, name))
  {
    hide Path;
    var front := ["_2nnel", "clients", id, "tunnels", name];
    var above := "/clients/" + id + "/tunnels/" + name;
    RemoveSegments(id, name);
    Extend(front, above, "dir");
    Extend(front, above, "promote");
    assert front + ["dir"] == ["_2nnel", "clients", id, "tunnels", name, "dir"];
    assert front + ["promote"] == ["_2nnel", "clients", id, "tunnels", name, "promote"];
  }

  lemma SegmentsPath(c: Command)
    ensures Path(Segments(c)) == ROOT + Local(c)
  {
    hide Path, Segments, Local;
    match c
    case SetDir(id, name) => DeepSegments(id, name);
    case Promote(id, name) => DeepSegments(id, name);
    case RemoveTunnel(id, name) => RemoveSegments(id, name);
    case Logs(name) => PromoteSegments(name);
    case StopDeploy(name) => PromoteSegments(name);
    case DismissBuild(name) => BuildSegments(name);
    case Disconnect(id) => ClientSegments(id);
    case AddTunnel(id) => ClientSegments(id);
    case _ => FixedSegments(c);
  }

  /** No part of the URL is a dot segment, and only the last may be empty. */
  ghost predicate Addressable(c: Command) {
    CleanSegments(Segments(c)) && Splits(c)
  }

  /**
    The router undoes the URLs of the dashboard exactly for the commands with such ids and names,
    whatever else the names contain: slashes, percent signs, or the words of the router itself.
  */
  lemma RouterUndoesUrls(c: Command)
    ensures Reached(VerbOf(c), Url(Segments(c))) == Some(c) <==> Addressable(c)
  {
    hide Dispatch, CleanSegments, Splits, Url, Path, PathOf, IsClean, Local, VerbOf;
    CleanUrl(Segments(c));
    PathOfUrl(Segments(c));
    SegmentsPath(c);
    DispatchUndoesPath(c);
  }

  predicate Plain(s: string) {
    s !in ["", ".", ".."] && '/' !in s
  }

  /** Plain ids and plain names are always addressable; names may even contain slashes. */
  lemma PlainIsAddressable(c: Command)
    requires match c
             case SetDir(id, name) => Plain(id) && name !in ["", ".", ".."]
             case Promote(id, name) => Plain(id) && name !in ["", ".", ".."]
             case RemoveTunnel(id, name) => Plain(id) && name !in [".", ".."]
             case Disconnect(id) => id !in ["", ".", ".."]
             case AddTunnel(id) => id !in ["", ".", ".."]
             case Logs(name) => name !in ["", ".", ".."]
             case StopDeploy(name) => name !in [".", ".."]
             case DismissBuild(name) => name !in [".", ".."]
             case _ => true
    ensures Addressable(c)
  {
    match c
    case SetDir(id, _) => SeparableWithoutSlash(id);
    case Promote(id, _) => SeparableWithoutSlash(id);
    case RemoveTunnel(id, _) => SeparableWithoutSlash(id);
    case _ =>
  }

  /** A tunnel whose name is a dot segment, for example, is addressed by no URL of the dashboard, whoever has it. */
  lemma DotNameUnreached(id: string, name: string)
    requires name == "." || name == ".."
    ensures Reached(PATCH, Url(Segments(SetDir(id, name)))) == None
    ensures Reached(POST, Url(Segments(Promote(id, name)))) == None
    ensures Reached(DELETE, Url(Segments(RemoveTunnel(id, name)))) == None
  {
    hide Url, IsClean, Dispatch, PathOf;
    var a, b, c := Segments(SetDir(id, name)), Segments(Promote(id, name)), Segments(RemoveTunnel(id, name));
    CleanUrl(a);
    CleanUrl(b);
    CleanUrl(c);
    assert a[4] == name && b[4] == name && c[4] == name;
  }

  // ----- no other path reaches a command

  /** A path in which the separator before the name doubles as the one before the last word, or the bare root. */
  predicate ShortForm(c: Command, path: string) {
    match c
    case Logs(name) => name == "logs" && path == "/promote/logs"
    case Disconnect(id) => id == "disconnect" && path == "/clients/disconnect"
    case AddTunnel(id) => id == "tunnels" && path == "/clients/tunnels"
    case SetDir(id, name) => name == "dir" && path == "/clients/" + id + "/tunnels/dir"
    case Promote(id, name) => name == "promote" && path == "/clients/" + id + "/tunnels/promote"
    case Page => path == ""
    case _ => false
  }

  lemma Overlap(path: string, pre: string, suf: string)
    requires HasPrefix(path, pre) && HasSuffix(path, suf)
    requires pre != "" && pre[|pre| - 1] == '/' && suf != "" && suf[0] == '/' && '/' !in suf[1..]
    ensures var m := Middle(path, pre, suf);
            path == pre + m + suf || (m == suf[1..] && path == pre + m)
  {
    var rest := path[|pre|..];
    var at := |path| - |suf|;
    assert path == pre + rest && path[at..] == suf && path[|pre| - 1] == '/';
    assert |rest| >= |suf| ==> rest[|rest| - |suf|..] == suf;
    forall i | at < i < |path|
      ensures path[i] != '/'
    {
      assert path[at..][i - at] == suf[1..][i - at - 1] && suf[1..][i - at - 1] in suf[1..];
    }
    if HasSuffix(rest, suf) {
      assert rest == rest[..|rest| - |suf|] + suf;
    } else {
      assert at == |pre| - 1;
      assert rest == suf[1..];
    }
  }

  lemma CutOverlap(path: string, suf: string)
    requires HasPrefix(path, "/clients/") && HasSuffix(path, suf)
    requires suf != "" && suf[0] == '/' && '/' !in suf[1..]
    ensures match Cut(TrimPrefix(path, "/clients/"), TUNNELS)
            case None => true
            case Some((id, rest)) =>
              var name := TrimSuffix(rest, suf);
              var front := "/clients/" + id + TUNNELS;
              path == front + name + suf || (name == suf[1..] && path == front + name)
  {
    match Cut(TrimPrefix(path, "/clients/"), TUNNELS)
    case None =>
    case Some((id, rest)) =>
      var front := "/clients/" + id + TUNNELS;
      assert path == "/clients/" + path[9..];
      assert path == front + rest;
      assert path[|front|..] == rest;
      assert front[|front| - 1] == '/';
      Overlap(path, front, suf);
  }

  /** c is the command of this path, or the path is the short form of it. */
  predicate PathFits(c: Command, path: string) {
    path == Local(c) || ShortForm(c, path)
  }

  lemma LogsCase(verb: Verb, path: string, name: string)
    requires Dispatch(verb, ROOT + path) == Some(Logs(name))
    ensures verb == GET && HasPrefix(path, "/promote/") && HasSuffix(path, "/logs")
    ensures name == Middle(path, "/promote/", "/logs")
  {
    assert (ROOT + path)[|ROOT|..] == path;
    hide HasSuffix, TrimSuffix, Contains, Cut, Middle;
  }

  lemma LogsForm(name: string, path: string)
    requires path == "/promote/" + name + "/logs" || (name == "logs" && path == "/promote/" + name)
    ensures PathFits(Logs(name), path)
  {
    assert "/promote/" + "logs" == "/promote/logs";
  }

  lemma LogsFits(verb: Verb, path: string, name: string)
    requires Dispatch(verb, ROOT + path) == Some(Logs(name))
    ensures verb == GET && PathFits(Logs(name), path)
  {
    LogsCase(verb, path, name);
    hide Dispatch, HasSuffix, HasPrefix, Middle, PathFits;
    assert "/logs"[1..] == "logs";
    Overlap(path, "/promote/", "/logs");
    LogsForm(name, path);
  }

  lemma ClientFits(verb: Verb, path: string, c: Command)
    requires Dispatch(verb, ROOT + path) == Some(c) && (c.Disconnect? || c.AddTunnel?)
    ensures verb == POST && HasPrefix(path, "/clients/")
    ensures c.Disconnect? ==> HasSuffix(path, "/disconnect") && c.id == Middle(path, "/clients/", "/disconnect")
    ensures c.AddTunnel? ==> HasSuffix(path, "/tunnels") && c.id == Middle(path, "/clients/", "/tunnels")
  {
    assert (ROOT + path)[|ROOT|..] == path;
    hide HasSuffix, TrimSuffix, Contains, Cut, Middle;
  }

  lemma NameFits(verb: Verb, path: string, c: Command)
    requires Dispatch(verb, ROOT + path) == Some(c) && (c.Logs? || c.Disconnect? || c.AddTunnel?)
    ensures verb == VerbOf(c) && PathFits(c, path)
  {
    hide Dispatch, HasSuffix, HasPrefix, Middle;
    match c
    case Logs(name) => LogsFits(verb, path, name);
    case Disconnect(_) =>
      ClientFits(verb, path, c);
      Overlap(path, "/clients/", "/disconnect");
    case AddTunnel(_) =>
      ClientFits(verb, path, c);
      Overlap(path, "/clients/", "/tunnels");
  }

  lemma TunnelCase(verb: Verb, path: string, c: Command)
    requires Dispatch(verb, ROOT + path) == Some(c) && (c.SetDir? || c.Promote? || c.RemoveTunnel?)
    ensures verb == VerbOf(c) && HasPrefix(path, "/clients/")
    ensures var r := Cut(TrimPrefix(path, "/clients/"), TUNNELS);
            r.Some? && r.value.0 == c.id &&
            match c
            case SetDir(_, name) => HasSuffix(path, "/dir") && name == TrimSuffix(r.value.1, "/dir")
            case Promote(_, name) => HasSuffix(path, "/promote") && name == TrimSuffix(r.value.1, "/promote")
            case _ => c.name == r.value.1
  {
    hide Cut, HasSuffix, TrimSuffix, Contains, Middle;
    assert (ROOT + path)[|ROOT|..] == path;
  }

  lemma CutFits(path: string, id: string, rest: string)
    requires HasPrefix(path, "/clients/") && Cut(TrimPrefix(path, "/clients/"), TUNNELS) == Some((id, rest))
    ensures HasSuffix(path, "/dir") ==> PathFits(SetDir(id, TrimSuffix(rest, "/dir")), path)
    ensures HasSuffix(path, "/promote") ==> PathFits(Promote(id, TrimSuffix(rest, "/promote")), path)
    ensures path == Local(RemoveTunnel(id, rest))
  {
    CutDir(path, id, rest);
    CutPromote(path, id, rest);
    CutPlain(path, id, rest);
    hide HasSuffix, TrimSuffix, Cut, PathFits, HasPrefix, TrimPrefix, Local;
  }

  lemma CutPlain(path: string, id: string, rest: string)
    requires HasPrefix(path, "/clients/") && Cut(TrimPrefix(path, "/clients/"), TUNNELS) == Some((id, rest))
    ensures path == Local(RemoveTunnel(id, rest))
  {
    hide Cut;
    assert path[..9] == "/clients/";
    var below := path[9..];
    assert TrimPrefix(path, "/clients/") == below;
    assert below == id + TUNNELS + rest;
    assert path == "/clients/" + below;
    PathBelow(path, id, rest);
  }

  lemma PathBelow(path: string, id: string, rest: string)
    requires path == "/clients/" + (id + TUNNELS + rest)
    ensures path == Local(RemoveTunnel(id, rest))
  {
    assert path == "/clients/" + id + TUNNELS + rest;
  }

  lemma CutDir(path: string, id: string, rest: string)
    requires HasPrefix(path, "/clients/") && Cut(TrimPrefix(path, "/clients/"), TUNNELS) == Some((id, rest))
    ensures HasSuffix(path, "/dir") ==> PathFits(SetDir(id, TrimSuffix(rest, "/dir")), path)
  {
    hide HasSuffix, HasPrefix, TrimPrefix, TrimSuffix, Cut;
    if HasSuffix(path, "/dir") {
      CutOverlap(path, "/dir");
    }
  }

  lemma CutPromote(path: string, id: string, rest: string)
    requires HasPrefix(path, "/clients/") && Cut(TrimPrefix(path, "/clients/"), TUNNELS) == Some((id, rest))
    ensures HasSuffix(path, "/promote") ==> PathFits(Promote(id, TrimSuffix(rest, "/promote")), path)
  {
    hide HasSuffix, HasPrefix, TrimPrefix, TrimSuffix, Cut;
    if HasSuffix(path, "/promote") {
      CutOverlap(path, "/promote");
    }
  }

  lemma TunnelFits(verb: Verb, path: string, c: Command)
    requires Dispatch(verb, ROOT + path) == Some(c) && (c.SetDir? || c.Promote? || c.RemoveTunnel?)
    ensures verb == VerbOf(c) && PathFits(c, path)
  {
    TunnelCase(verb, path, c);
    var r := Cut(TrimPrefix(path, "/clients/"), TUNNELS);
    hide Dispatch, HasSuffix, HasPrefix, TrimPrefix, TrimSuffix, Cut, PathFits;
    CutFits(path, c.id, r.value.1);
    if c.RemoveTunnel? {
      LocalFits(c);
    }
  }

  lemma LocalFits(c: Command)
    ensures PathFits(c, Local(c))
  {
  }

  lemma RestFits(verb: Verb, path: string, c: Command)
    requires Dispatch(verb, ROOT + path) == Some(c) && (c.StopDeploy? || c.DismissBuild?)
    ensures verb == VerbOf(c) && path == (if c.StopDeploy? then "/promote/" else "/builds/") + c.name
  {
    assert (ROOT + path)[|ROOT|..] == path;
    hide HasSuffix, TrimSuffix, Contains, Cut, Middle;
    assert c.StopDeploy? ==> path == "/promote/" + path[9..];
    assert c.DismissBuild? ==> path == "/builds/" + path[8..];
  }

  lemma FixedFits(verb: Verb, path: string, c: Command)
    requires Dispatch(verb, ROOT + path) == Some(c) && (c.Page? || c.Metrics? || c.Stream? || c.Upload?)
    ensures (c.Upload? ==> verb == POST) && PathFits(c, path)
  {
    assert (ROOT + path)[|ROOT|..] == path;
    hide HasSuffix, HasPrefix, TrimSuffix, Contains, Cut, Middle;
  }

  /** No handler is reached by accident: a path leads to a command only when it is that command's path. */
  lemma OnlyItsPath(verb: Verb, path: string, c: Command)
    requires Dispatch(verb, ROOT + path) == Some(c)
    ensures c.Page? || c.Metrics? || c.Stream? || verb == VerbOf(c)
    ensures path == Local(c) || ShortForm(c, path)
  {
    hide Dispatch;
    match c
    case Logs(_) => NameFits(verb, path, c);
    case Disconnect(_) => NameFits(verb, path, c);
    case AddTunnel(_) => NameFits(verb, path, c);
    case SetDir(_, _) => TunnelFits(verb, path, c);
    case Promote(_, _) => TunnelFits(verb, path, c);
    case RemoveTunnel(_, _) => TunnelFits(verb, path, c);
    case StopDeploy(_) => RestFits(verb, path, c);
    case DismissBuild(_) => RestFits(verb, path, c);
    case _ => FixedFits(verb, path, c);
  }
}
