/** The inspector's state machine (src/app.rs): discovery, fetch and destroy, each a
    dispatch step and a completion callback over four state cells, and one frame of
    `update` that dispatches them and shows the snapshot. */
module App {
  import opened Wrappers
  import opened Json
  import opened Brp
  import opened Helper
  import opened Tree

  /** `Download`; `Idle` is the source's `Download::None`. */
  datatype Download = Idle | InProgress | Done

  /** The diagnostic held in `error_info`: what a failure stored there. The source keeps
      the `{:#?}` text of the first two and the `parse` message of the third. */
  datatype ErrorInfo =
    | TransportDump(message: string)
    | ResponseDump(response: HttpResponse)
    | ParseFailed(failure: ParseError)

  /** The value that `make_request` serialises as `params`. */
  datatype Params = QueryArg(query: Option<QueryParams>) | DestroyArg(destroy: DestroyParams)

  type Request = HttpRequest<Params>

  /** The four shared cells of `TemplateApp`, plus the "Hide empty entities" flag. */
  datatype AppState = AppState(
    download: Download,
    queryList: Option<QueryParams>,
    components: Snapshot,
    skipEmptyEntities: bool,
    errorInfo: Option<ErrorInfo>)

  /** `TemplateApp::default()`. */
  const DefaultState := AppState(Idle, None, map[], true, None)

  // ----- the url -----

  function Digit(d: nat): char
    requires d < 10
  {
    "0123456789"[d]
  }

  /** The decimal text of `n`, as `format!("{}", n)` writes it. */
  function Decimal(n: nat): (r: string)
    ensures |r| > 0
  {
    if n < 10 then [Digit(n)] else Decimal(n / 10) + [Digit(n % 10)]
  }

  /** `get_url`: the endpoint of the inspected process. */
  function GetUrl(): (r: string)
    ensures r == "http://127.0.0.1:15702/"
  {
    assert Decimal(15702) == "15702" by {
      assert Decimal(1) == "1";
      assert Decimal(15) == "15";
      assert Decimal(157) == "157";
      assert Decimal(1570) == "1570";
    }
    "http://" + DefaultAddr + ":" + Decimal(DefaultPort) + "/"
  }

  // ----- the requests the inspector sends -----

  /** The discovery request: `bevy/list` without parameters. */
  function ListRequest(id: u64): Request {
    Get(GetUrl(), Envelope(id, ListMethod, None))
  }

  /** The fetch request: `bevy/query` carrying the query as it stands. */
  function QueryRequest(id: u64, query: Option<QueryParams>): Request {
    Get(GetUrl(), Envelope(id, QueryMethod, Some(QueryArg(query))))
  }

  /** The destroy request for one entity. */
  function DestroyRequest(id: u64, e: EntityId): Request {
    Get(GetUrl(), Envelope(id, DestroyMethod, Some(DestroyArg(DestroyParams(e)))))
  }

  /** One destroy request per target, numbered on from `first`. */
  function DestroyRequests(targets: seq<EntityId>, first: u64): (r: seq<Request>)
    ensures |r| == |targets|
    ensures forall i :: 0 <= i < |targets| ==> r[i] == DestroyRequest(Advance(first, i), targets[i])
  {
    if targets == [] then []
    else DestroyRequests(targets[..|targets| - 1], first) + [DestroyRequest(Advance(first, |targets| - 1), targets[|targets| - 1])]
  }

  lemma DestroyRequestsSnoc(targets: seq<EntityId>, e: EntityId, first: u64)
    ensures DestroyRequests(targets + [e], first)
      == DestroyRequests(targets, first) + [DestroyRequest(Advance(first, |targets|), e)]
  {
    assert (targets + [e])[..|targets|] == targets;
  }

  // ----- the snapshot -----

  /** `to_hash_map`: rows keyed by their entity. */
  function ToHashMap(rows: seq<QueryRow>): (m: Snapshot)
    ensures m.Keys == set r | r in rows :: r.entity
    ensures forall e :: e in m ==> m[e] in rows && m[e].entity == e
  {
    if rows == [] then map[]
    else
      var last := rows[|rows| - 1];
      ToHashMap(rows[..|rows| - 1])[last.entity := last]
  }

  /** `collect` into a map keeps, for each entity, the last row that names it. */
  lemma {:induction false} ToHashMapLastWins(rows: seq<QueryRow>, i: nat)
    requires i < |rows|
    requires forall j :: i < j < |rows| ==> rows[j].entity != rows[i].entity
    ensures rows[i].entity in ToHashMap(rows) && ToHashMap(rows)[rows[i].entity] == rows[i]
  {
    if i < |rows| - 1 {
      ToHashMapLastWins(rows[..|rows| - 1], i);
    }
  }

  // ----- the state machine on values -----

  /** The query built from a discovered type list: every type optional, nothing
      required, no "has" checks, no filter. */
  function DiscoveryQuery(types: seq<string>): QueryParams {
    QueryParams(Query([], types, []), DefaultFilter)
  }

  /** Discovery fires on a frame where nothing is downloading and there is no query. */
  predicate DiscoveryDue(s: AppState) {
    s.download != InProgress && s.queryList.None?
  }

  /** The Fetch button (and the filter checkbox) are enabled when nothing is downloading
      and a query exists. */
  predicate FetchEnabled(s: AppState) {
    s.download != InProgress && s.queryList.Some?
  }

  /** What a `bevy/list` callback makes of its response: the type list, or the
      diagnostic it stores. A parse failure stores the response itself. */
  function ListOutcome(response: Result<HttpResponse, string>, decode: Decoder<seq<string>>): Result<seq<string>, ErrorInfo> {
    match response
    case Err(e) => Err(TransportDump(e))
    case Ok(r) =>
      if !r.ok then Err(ResponseDump(r))
      else
        match Parse(r, decode)
        case Ok(types) => Ok(types)
        case Err(_) => Err(ResponseDump(r))
  }

  /** What a `bevy/query` callback makes of its response: the rows, or the diagnostic it
      stores. A parse failure stores the parse message. */
  function FetchOutcome(response: Result<HttpResponse, string>, decode: Decoder<seq<QueryRow>>): Result<seq<QueryRow>, ErrorInfo> {
    match response
    case Err(e) => Err(TransportDump(e))
    case Ok(r) =>
      if !r.ok then Err(ResponseDump(r))
      else
        match Parse(r, decode)
        case Ok(rows) => Ok(rows)
        case Err(e) => Err(ParseFailed(e))
  }

  /** Dispatching discovery or a fetch marks the download as in progress. */
  function Dispatched(s: AppState): AppState {
    s.(download := InProgress)
  }

  function ListCompleted(s: AppState, response: Result<HttpResponse, string>, decode: Decoder<seq<string>>): AppState {
    match ListOutcome(response, decode)
    case Ok(types) => s.(download := Done, queryList := Some(DiscoveryQuery(types)), errorInfo := None)
    case Err(info) => s.(download := Done, errorInfo := Some(info))
  }

  function FetchCompleted(s: AppState, response: Result<HttpResponse, string>, decode: Decoder<seq<QueryRow>>): AppState {
    match FetchOutcome(response, decode)
    case Ok(rows) => s.(download := Done, components := ToHashMap(rows), errorInfo := None)
    case Err(info) => s.(download := Done, errorInfo := Some(info))
  }

  function DestroyCompleted(s: AppState): AppState {
    s.(download := Done)
  }

  /** The state after the control row of one frame. */
  function Controlled(s: AppState, fetchClicked: bool, toggleSkipEmpty: bool): AppState {
    if DiscoveryDue(s) then Dispatched(s)
    else if FetchEnabled(s) then
      var t := if fetchClicked then Dispatched(s) else s;
      t.(skipEmptyEntities := if toggleSkipEmpty then !s.skipEmptyEntities else s.skipEmptyEntities)
    else s
  }

  /** The requests the control row of one frame sends, numbered from `first`. */
  function ControlRequests(s: AppState, fetchClicked: bool, first: u64): seq<Request> {
    if DiscoveryDue(s) then [ListRequest(first)]
    else if FetchEnabled(s) && fetchClicked then [QueryRequest(first, s.queryList)]
    else []
  }

  // ----- what one frame shows -----

  datatype Notice = ShowError(info: ErrorInfo) | NoComponents

  /** The guard in front of the entity list: an error is shown in preference to the
      empty-snapshot message, and either one replaces the list. */
  function DisplayGuard(components: Snapshot, errorInfo: Option<ErrorInfo>): (r: Option<Notice>)
    ensures r.None? <==> |components| > 0 && errorInfo.None?
    ensures errorInfo.Some? ==> r == Some(ShowError(errorInfo.value))
    ensures errorInfo.None? && |components| == 0 ==> r == Some(NoComponents)
  {
    if |components| == 0 || errorInfo.Some? then
      match errorInfo
      case Some(e) => Some(ShowError(e))
      case None => Some(NoComponents)
    else None
  }

  /** The lower part of a frame: a notice, or the roots in the order taken and the
      headers drawn for them. */
  datatype Screen = ShowNotice(notice: Notice) | Forest(roots: seq<EntityId>, views: seq<View>)

  datatype FrameInput = FrameInput(fetchClicked: bool, toggleSkipEmpty: bool, tree: Expansion)

  datatype Frame = Frame(requests: seq<Request>, screen: Screen)

  /** What the lower part of a frame shows in state `s` and which destroys it sends. */
  ghost predicate Rendered(s: AppState, ui: Expansion, screen: Screen, destroys: seq<Request>, first: u64) {
    match DisplayGuard(s.components, s.errorInfo)
    case Some(n) => screen == ShowNotice(n) && destroys == []
    case None =>
      && screen.Forest?
      && (forall e :: e in screen.roots <==> e in Roots(s.components))
      && (forall i, j :: 0 <= i < j < |screen.roots| ==> screen.roots[i] != screen.roots[j])
      && screen.views == RootViews(s.components, s.skipEmptyEntities, ui, screen.roots)
      && destroys == DestroyRequests(RemoveTargets(s.components, s.skipEmptyEntities, ui, screen.roots), first)
  }

  // ----- the application object -----

  class TemplateApp {
    var download: Download
    var queryList: Option<QueryParams>
    var components: Snapshot
    var skipEmptyEntities: bool
    var errorInfo: Option<ErrorInfo>
    /** The process-wide request counter of src/helper.rs. */
    const counter: RequestCounter

    function State(): AppState
      reads this
    {
      AppState(download, queryList, components, skipEmptyEntities, errorInfo)
    }

    /** `TemplateApp::default()`, sharing the process's counter. */
    constructor (counter: RequestCounter)
      ensures State() == DefaultState && this.counter == counter
    {
      download := Idle;
      queryList := None;
      components := map[];
      skipEmptyEntities := true;
      errorInfo := None;
      this.counter := counter;
    }

    /** `fetch_list`, dispatch step. */
    method FetchList() returns (request: Request)
      modifies this, counter
      ensures State() == Dispatched(old(State()))
      ensures request == ListRequest(old(counter.value))
      ensures counter.value == Successor(old(counter.value))
    {
      download := InProgress;
      request := MakeEmptyRequest(counter, ListMethod, GetUrl());
    }

    /** `fetch_list`, completion callback. */
    method OnListResponse(response: Result<HttpResponse, string>, decode: Decoder<seq<string>>)
      modifies this
      ensures State() == ListCompleted(old(State()), response, decode)
    {
      download := Done;
      if response.Err? {
        errorInfo := Some(TransportDump(response.error));
        return;
      }
      var r := response.value;
      if !r.ok {
        errorInfo := Some(ResponseDump(r));
        return;
      }
      var typeList := Parse(r, decode);
      if typeList.Err? {
        errorInfo := Some(ResponseDump(r));
        return;
      }
      queryList := Some(DiscoveryQuery(typeList.value));
      errorInfo := None;
    }

    /** The Fetch button's dispatch step. */
    method DispatchFetch() returns (request: Request)
      modifies this, counter
      ensures State() == Dispatched(old(State()))
      ensures request == QueryRequest(old(counter.value), queryList)
      ensures counter.value == Successor(old(counter.value))
    {
      download := InProgress;
      request := MakeRequest(counter, QueryArg(queryList), QueryMethod, GetUrl());
    }

    /** The fetch completion callback. */
    method OnFetchResponse(response: Result<HttpResponse, string>, decode: Decoder<seq<QueryRow>>)
      modifies this
      ensures State() == FetchCompleted(old(State()), response, decode)
    {
      download := Done;
      if response.Err? {
        errorInfo := Some(TransportDump(response.error));
        return;
      }
      var r := response.value;
      if !r.ok {
        errorInfo := Some(ResponseDump(r));
        return;
      }
      match Parse(r, decode)
      case Ok(rows) =>
        components := ToHashMap(rows);
        errorInfo := None;
      case Err(err) =>
        errorInfo := Some(ParseFailed(err));
    }

    /** The destroy dispatch step for a root whose Remove button was clicked; it leaves
        the four cells alone. */
    method DispatchDestroy(e: EntityId) returns (request: Request)
      modifies counter
      ensures request == DestroyRequest(old(counter.value), e)
      ensures counter.value == Successor(old(counter.value))
    {
      request := MakeRequest(counter, DestroyArg(DestroyParams(e)), DestroyMethod, GetUrl());
    }

    /** The destroy completion callback: whatever the response, only the download flag
        changes. */
    method OnDestroyResponse(response: Result<HttpResponse, string>)
      modifies this
      ensures State() == DestroyCompleted(old(State()))
    {
      download := Done;
    }

    /** The control row of `update`: automatic discovery, the Fetch button and the
        "Hide empty entities" checkbox. */
    method ControlRow(fetchClicked: bool, toggleSkipEmpty: bool) returns (requests: seq<Request>)
      modifies this, counter
      ensures State() == Controlled(old(State()), fetchClicked, toggleSkipEmpty)
      ensures requests == ControlRequests(old(State()), fetchClicked, old(counter.value))
      ensures counter.value == Advance(old(counter.value), |requests|)
    {
      var isDownloading := download == InProgress;
      var hasQuery := queryList.Some?;
      requests := [];
      if !isDownloading && !hasQuery {
        var r := FetchList();
        requests := [r];
      }
      if !isDownloading && hasQuery {
        if fetchClicked {
          var r := DispatchFetch();
          requests := requests + [r];
        }
        if toggleSkipEmpty {
          skipEmptyEntities := !skipEmptyEntities;
        }
      }
    }

    /** `draw_entity`: draws the header of `e` below `prefix` and, if it is open, its
        children and its component dump. */
    method DrawEntity(ui: Expansion, prefix: Path, e: EntityId, components: Snapshot) returns (d: Drawn)
      ensures d == Walk(components, skipEmptyEntities, ui, prefix, e)
      decreases Below(ui.expanded, prefix)
    {
      var action := NoAction;
      if e !in components {
        return Drawn(None, action);
      }
      var item := components[e];
      var isEmpty := |item.components| == 0;
      if skipEmptyEntities && isEmpty {
        return Drawn(None, action);
      }
      var name := Unnamed;
      if NameKey in item.components {
        var value := item.components[NameKey];
        name := if NameReadable(value) then Named(NameLabel(value)) else NamePanics;
      }
      var path := prefix + [e];
      if path !in ui.expanded {
        return Drawn(Some(View(e, name, Collapsed)), action);
      }
      if path in ui.removeClicked {
        action := Remove;
      }
      var children := NoChildren;
      if ChildrenKey in item.components {
        var value := item.components[ChildrenKey];
        if !value.Array? {
          return Drawn(Some(View(e, name, Open(NotAnArray, None))), action);
        }
        var ids := U64Entries(value.items);
        var views := [];
        BelowShrinks(ui.expanded, prefix, e);
        for i := 0 to |ids|
          invariant views == WalkChildren(components, skipEmptyEntities, ui, path, ids[..i])
        {
          var child := DrawEntity(ui, path, EntityId(ids[i]), components);
          assert ids[..i + 1][..i] == ids[..i];
          if child.view.Some? {
            views := views + [child.view.value];
          }
        }
        assert ids[..|ids|] == ids;
        children := Listed(views);
      }
      var dump := DumpComponents(item.components);
      return Drawn(Some(View(e, name, Open(children, Some(dump)))), action);
    }

    /** The lower part of `update`: the notice, or every root drawn in turn, with a
        destroy sent for each root that returned Remove. */
    method Render(ui: Expansion) returns (screen: Screen, requests: seq<Request>)
      modifies counter
      ensures Rendered(State(), ui, screen, requests, old(counter.value))
      ensures counter.value == Advance(old(counter.value), |requests|)
    {
      var content := components;
      var isEmpty := |content| == 0;
      if isEmpty || errorInfo.Some? {
        match errorInfo {
          case Some(e) =>
            screen := ShowNotice(ShowError(e));
          case None =>
            screen := ShowNotice(NoComponents);
        }
        requests := [];
        return;
      }
      var entities := Enumerate(Roots(content));
      var views;
      views, requests := DrawRoots(ui, content, entities);
      screen := Forest(entities, views);
    }

    /** The root loop of `update`: draws each root in the order given and sends a
        destroy for each one that returned Remove. */
    method DrawRoots(ui: Expansion, content: Snapshot, entities: seq<EntityId>) returns (views: seq<View>, requests: seq<Request>)
      modifies counter
      ensures views == RootViews(content, skipEmptyEntities, ui, entities)
      ensures requests == DestroyRequests(RemoveTargets(content, skipEmptyEntities, ui, entities), old(counter.value))
      ensures counter.value == Advance(old(counter.value), |requests|)
    {
      views := [];
      requests := [];
      ghost var first := counter.value;
      for i := 0 to |entities|
        invariant views == RootViews(content, skipEmptyEntities, ui, entities[..i])
        invariant requests == DestroyRequests(RemoveTargets(content, skipEmptyEntities, ui, entities[..i]), first)
        invariant counter.value == Advance(first, |requests|)
      {
        var e := entities[i];
        ghost var targets := RemoveTargets(content, skipEmptyEntities, ui, entities[..i]);
        RootStep(content, skipEmptyEntities, ui, entities, i);
        var d := DrawEntity(ui, [], e, content);
        if d.view.Some? {
          views := views + [d.view.value];
        }
        match d.action {
          case NoAction =>
          case Remove =>
            var r := DispatchDestroy(e);
            DestroyRequestsSnoc(targets, e, first);
            requests := requests + [r];
        }
      }
      assert entities[..|entities|] == entities;
    }

    /** One frame of `update`: the control row, then the lower part. */
    method Update(input: FrameInput) returns (frame: Frame)
      modifies this, counter
      ensures State() == Controlled(old(State()), input.fetchClicked, input.toggleSkipEmpty)
      ensures var control := ControlRequests(old(State()), input.fetchClicked, old(counter.value));
        && |control| <= |frame.requests|
        && frame.requests[..|control|] == control
        && Rendered(State(), input.tree, frame.screen, frame.requests[|control|..], Advance(old(counter.value), |control|))
      ensures counter.value == Advance(old(counter.value), |frame.requests|)
    {
      var control := ControlRow(input.fetchClicked, input.toggleSkipEmpty);
      var screen, destroys := Render(input.tree);
      frame := Frame(control + destroys, screen);
      assert frame.requests[..|control|] == control;
      assert frame.requests[|control|..] == destroys;
      AdvanceAdds(old(counter.value), |control|, |destroys|);
    }
  }

  lemma {:induction false} AdvanceAdds(v: u64, m: nat, n: nat)
    ensures Advance(Advance(v, m), n) == Advance(v, m + n)
  {
    if n > 0 {
      AdvanceAdds(v, m, n - 1);
    }
  }

  // ----- properties of the state machine -----

  /** The initial state: Idle, no query, empty snapshot, no error, empty entities hidden;
      so the first frame starts discovery and the Fetch button is disabled. */
  lemma InitialState()
    ensures DefaultState.download == Idle && DefaultState.queryList.None?
    ensures DefaultState.components == map[] && DefaultState.errorInfo.None? && DefaultState.skipEmptyEntities
    ensures DiscoveryDue(DefaultState) && !FetchEnabled(DefaultState)
  {
  }

  /** Discovery and the Fetch button are never due together, and one of them is whenever
      nothing is downloading. */
  lemma DiscoveryOrFetch(s: AppState)
    ensures !(DiscoveryDue(s) && FetchEnabled(s))
    ensures s.download != InProgress <==> DiscoveryDue(s) || FetchEnabled(s)
  {
  }

  /** The control row: discovery is requested exactly when it is due and the query is
      requested exactly when the enabled Fetch button is clicked; each sets InProgress;
      the checkbox toggles only while the button is enabled; the snapshot, the query
      and the error are untouched. */
  lemma ControlRowCases(s: AppState, fetchClicked: bool, toggleSkipEmpty: bool, first: u64)
    ensures var t := Controlled(s, fetchClicked, toggleSkipEmpty);
      var requests := ControlRequests(s, fetchClicked, first);
      && |requests| <= 1
      && (DiscoveryDue(s) <==> requests == [ListRequest(first)])
      && (FetchEnabled(s) && fetchClicked <==> requests == [QueryRequest(first, s.queryList)])
      && (requests != [] <==> t.download == InProgress && s.download != InProgress)
      && (t.skipEmptyEntities != s.skipEmptyEntities <==> FetchEnabled(s) && toggleSkipEmpty)
      && t.queryList == s.queryList && t.components == s.components && t.errorInfo == s.errorInfo
  {
  }

  /** The discovery callback reaches the type list exactly when the transport delivered
      a 2xx response that parses; the list is then the decoded payload. */
  lemma ListOutcomeCases(response: Result<HttpResponse, string>, decode: Decoder<seq<string>>)
    ensures ListOutcome(response, decode).Ok? <==>
      response.Ok? && response.value.ok && Parse(response.value, decode).Ok?
    ensures ListOutcome(response, decode).Ok? ==>
      ListOutcome(response, decode).value == Parse(response.value, decode).value
    ensures response.Err? ==> ListOutcome(response, decode) == Err(TransportDump(response.error))
    ensures response.Ok? && (!response.value.ok || Parse(response.value, decode).Err?) ==>
      ListOutcome(response, decode) == Err(ResponseDump(response.value))
  {
  }

  /** The fetch callback reaches the rows exactly when the transport delivered a 2xx
      response that parses; a parse failure stores the parse error itself. */
  lemma FetchOutcomeCases(response: Result<HttpResponse, string>, decode: Decoder<seq<QueryRow>>)
    ensures FetchOutcome(response, decode).Ok? <==>
      response.Ok? && response.value.ok && Parse(response.value, decode).Ok?
    ensures FetchOutcome(response, decode).Ok? ==>
      FetchOutcome(response, decode).value == Parse(response.value, decode).value
    ensures response.Err? ==> FetchOutcome(response, decode) == Err(TransportDump(response.error))
    ensures response.Ok? && !response.value.ok ==> FetchOutcome(response, decode) == Err(ResponseDump(response.value))
    ensures response.Ok? && response.value.ok && Parse(response.value, decode).Err? ==>
      FetchOutcome(response, decode) == Err(ParseFailed(Parse(response.value, decode).error))
  {
  }

  /** The discovery callback always finishes the download; on success it installs the
      query for the discovered types and clears the error; on any failure it records the
      error and keeps the query; it never touches the snapshot. */
  lemma ListCompletedEffect(s: AppState, response: Result<HttpResponse, string>, decode: Decoder<seq<string>>)
    ensures var t := ListCompleted(s, response, decode);
      && t.download == Done
      && t.components == s.components && t.skipEmptyEntities == s.skipEmptyEntities
      && (match ListOutcome(response, decode)
          case Ok(types) => t.queryList == Some(DiscoveryQuery(types)) && t.errorInfo.None?
          case Err(info) => t.queryList == s.queryList && t.errorInfo == Some(info))
  {
  }

  /** Discovering no component types still yields a usable query, and the Fetch button
      is then enabled. */
  lemma EmptyDiscovery(s: AppState, r: HttpResponse, decode: Decoder<seq<string>>, id: Value)
    requires r.ok && r.text == Some(Single(Success(Array([]), id))) && decode(Array([])) == Ok([])
    ensures ListCompleted(s, Ok(r), decode).queryList == Some(QueryParams(Query([], [], []), QueryFilter([], [])))
    ensures FetchEnabled(ListCompleted(s, Ok(r), decode))
  {
  }

  /** The fetch callback always finishes the download; on success the snapshot is
      replaced wholesale by the decoded rows and the error cleared; on any failure the
      error is recorded and the previous snapshot kept. */
  lemma FetchCompletedEffect(s: AppState, response: Result<HttpResponse, string>, decode: Decoder<seq<QueryRow>>)
    ensures var t := FetchCompleted(s, response, decode);
      && t.download == Done
      && t.queryList == s.queryList && t.skipEmptyEntities == s.skipEmptyEntities
      && (match FetchOutcome(response, decode)
          case Ok(rows) => t.components == ToHashMap(rows) && t.errorInfo.None?
          case Err(info) => t.components == s.components && t.errorInfo == Some(info))
  {
  }

  /** Full refresh: after two completions the snapshot holds exactly the rows of the one
      applied last when it succeeded, whatever the first did (callbacks apply in arrival
      order, so a stale response arriving last wins). */
  lemma FullRefresh(s: AppState, first: Result<HttpResponse, string>, second: Result<HttpResponse, string>,
                    decode: Decoder<seq<QueryRow>>)
    requires FetchOutcome(second, decode).Ok?
    ensures FetchCompleted(FetchCompleted(s, first, decode), second, decode).components
      == ToHashMap(FetchOutcome(second, decode).value)
    ensures FetchCompleted(FetchCompleted(s, first, decode), second, decode)
      == FetchCompleted(s, second, decode).(download := Done)
  {
  }

  /** A destroy changes no cell but the download flag, so a destroyed entity stays in
      the snapshot until the next successful fetch. Its completion marks the download
      Done even while a fetch is still in flight, which enables the Fetch button again. */
  lemma DestroyKeepsSnapshot(s: AppState, e: EntityId)
    ensures DestroyCompleted(s).components == s.components
    ensures e in s.components ==> e in DestroyCompleted(s).components
    ensures DestroyCompleted(s) == s.(download := Done)
    ensures s.queryList.Some? ==> FetchEnabled(DestroyCompleted(s))
  {
  }

  /** Once a query exists, no dispatch, callback or frame removes it. */
  lemma QueryNeverReset(s: AppState, response: Result<HttpResponse, string>, types: Decoder<seq<string>>,
                        rows: Decoder<seq<QueryRow>>, fetchClicked: bool, toggleSkipEmpty: bool)
    requires s.queryList.Some?
    ensures Dispatched(s).queryList == s.queryList
    ensures ListCompleted(s, response, types).queryList.Some?
    ensures FetchCompleted(s, response, rows).queryList == s.queryList
    ensures DestroyCompleted(s).queryList == s.queryList
    ensures Controlled(s, fetchClicked, toggleSkipEmpty).queryList == s.queryList
  {
  }

  // ----- properties of what a frame shows -----

  /** An error, or an empty snapshot, replaces the entity list and sends no destroy; the
      error is shown in preference to the empty-snapshot message. */
  lemma RenderedNotice(s: AppState, ui: Expansion, screen: Screen, destroys: seq<Request>, first: u64)
    requires Rendered(s, ui, screen, destroys, first)
    requires |s.components| == 0 || s.errorInfo.Some?
    ensures destroys == [] && screen.ShowNotice?
    ensures s.errorInfo.Some? ==> screen == ShowNotice(ShowError(s.errorInfo.value))
    ensures s.errorInfo.None? ==> screen == ShowNotice(NoComponents)
  {
  }

  /** Otherwise every root is taken once, the headers drawn at the top level are exactly
      the drawable roots, and the destroys sent are numbered on from the counter, one for
      each root whose own open header had its Remove button clicked. */
  lemma RenderedForest(s: AppState, ui: Expansion, screen: Screen, destroys: seq<Request>, first: u64)
    requires Rendered(s, ui, screen, destroys, first)
    requires |s.components| > 0 && s.errorInfo.None?
    ensures screen.Forest?
    ensures forall v :: v in screen.views ==>
      v.entity in Roots(s.components) && Drawable(s.components, s.skipEmptyEntities, v.entity)
    ensures forall e :: e in Roots(s.components) && Drawable(s.components, s.skipEmptyEntities, e) ==>
      exists v :: v in screen.views && v.entity == e
    ensures forall i :: 0 <= i < |destroys| ==> exists e ::
      && destroys[i] == DestroyRequest(Advance(first, i), e)
      && e in Roots(s.components) && Drawable(s.components, s.skipEmptyEntities, e)
      && [e] in ui.expanded && [e] in ui.removeClicked
  {
    var targets := RemoveTargets(s.components, s.skipEmptyEntities, ui, screen.roots);
    RootViewsEntities(s.components, s.skipEmptyEntities, ui, screen.roots);
    RemoveTargetsExactly(s.components, s.skipEmptyEntities, ui, screen.roots);
    forall i | 0 <= i < |destroys|
      ensures exists e ::
        && destroys[i] == DestroyRequest(Advance(first, i), e)
        && e in Roots(s.components) && Drawable(s.components, s.skipEmptyEntities, e)
        && [e] in ui.expanded && [e] in ui.removeClicked
    {
      assert targets[i] in targets;
    }
  }
}
