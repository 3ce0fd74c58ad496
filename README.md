# Bevy remote inspector — a Dafny model of its core

The inspector is a desktop client for a running Bevy game. Bevy's remote protocol
(BRP) is a JSON-RPC 2.0 dialect served over HTTP. The client sends three kinds of
request:

- `bevy/list` discovers the component types.
- `bevy/query` fetches one snapshot of every entity, with every discovered type as
  an optional component.
- `bevy/destroy` removes an entity.

The snapshot is a map from entity to query row. The client draws it as a forest of
collapsible headers: the roots are the entities without a `Parent` component, and
the children of an entity are the ids listed in its `Children` array.

The model has six modules:

- `Wrappers`: `Option` and `Result`.
- `Json`: the JSON value the protocol carries, with unsigned and signed 64-bit
  integers.
- `Brp`: entity ids, query rows, query parameters, the method names, the default
  endpoint and the reserved component keys.
- `Helper` (`src/helper.rs`): the process-wide request counter, a class whose one
  method is the wrapping `fetch_add`. Also the JSON-RPC envelope, the GET request
  that carries it, and `parse`, which turns a reply into a value or an error
  message.
- `Tree` (`draw_entity` in `src/app.rs`): one entity's header and, when open, its
  children and its component dump; the root selection; the component-dump loop.
- `App` (`src/app.rs`): the application state and its defaults, the URL, and
  `fetch_list`. Also the Fetch button and the destroy dispatch, each with the
  callback that completes it, the control row, the error/empty guard, and one
  frame of `update`.

The shared cells (`Arc<Mutex<…>>`) are fields of the class `App.TemplateApp`. Each
method states its new state as a function of the old one, on the value type
`App.AppState`. The properties the program relies on are proved as lemmas about
those functions. The methods are:

- `FetchList`, `DispatchFetch` and `DispatchDestroy`: the three dispatches.
- `OnListResponse`, `OnFetchResponse` and `OnDestroyResponse`: their callbacks.
- `ControlRow`, `Render` and `Update`: one frame.

egui shows the body of a collapsing header only while it is open. The user's open
headers are therefore an input of a frame: a finite set of paths from a root down
to the entity whose header is open (`Tree.Expansion`). Drawing descends only
through an open header. So the walk ends on every snapshot, even a malformed one
whose `Children` arrays form a cycle, with no fuel and no visited set. In the
program, a cycle is drawn again on each level the user opens.

Points of the program's behaviour that the model keeps as they are:

- The program keeps one optional string for every kind of error. `parse` returns
  its own messages ("Cannot parse text", "NOT ONE") or the text of the remote or
  decoding error.
- A discovery (`bevy/list`) whose body fails to parse stores the dump of the whole
  response (`src/app.rs:112-115`). A fetch (`bevy/query`) in the same case stores
  only the parse message (`src/app.rs:268-270`).
- A reply that is not valid JSON makes `parse` panic (`src/helper.rs:60`).
- Completing a destroy sets the download flag to Done, even while a fetch is still
  in flight (`src/app.rs:333-335`). That enables the Fetch button again before the
  fetch returns (`App.DestroyKeepsSnapshot`).
- A click on "Remove entity" in a child's header produces no destroy. The root loop
  (`src/app.rs:323-337`) is the only place that acts on `ActionToDo::Remove`, and
  `draw_entity` throws away the actions of its recursive calls
  (`App.TemplateApp.DrawEntity`, `Tree.RemoveTargetsExactly`).

## Model

| member | source | states |
|---|---|---|
| Helper.RequestCounter.constructor | src/helper.rs:8-10 | the counter starts at 1 |
| Helper.RequestCounter.FetchAdd | src/helper.rs:20 | returns the previous value and advances the counter by one, wrapping from 2^64-1 to 0 as `usize` does |
| Helper.Successor | src/helper.rs:20 | one more than its argument below 2^64-1, and 0 at 2^64-1 |
| Helper.AdvanceWithoutWrap | src/helper.rs:20 | n increments from v, with no wrap in between, give v + n |
| Helper.Envelope | src/helper.rs:21-26 | the envelope has version "2.0" and the given method. Its id is the counter value as a JSON unsigned number. Its params are absent exactly when no value is given, and otherwise are that value |
| Helper.CreateRequest | src/helper.rs:12-27 | the request is the envelope numbered with the counter's value before the call, and the counter moves on by one |
| Helper.Get | src/helper.rs:35-40 | a GET request to the given URL whose body is the serialised envelope |
| Helper.MakeRequest | src/helper.rs:29-41 | a GET of the envelope numbered by the counter, carrying the given parameters; the counter moves on by one |
| Helper.MakeEmptyRequest | src/helper.rs:43-51 | a GET of the envelope numbered by the counter, with no parameters; the counter moves on by one |
| Helper.ThreeRequests | src/helper.rs:8-27 | on a fresh counter, three successive requests get ids 1, 2 and 3, each with its own method |
| Helper.Parse | src/helper.rs:53-75 | success only for a reply holding a single Success output, and the value is then what the shape decoder made of its result |
| Helper.ParseNoText | src/helper.rs:57-59 | a body that is not text gives "Cannot parse text" |
| Helper.ParseBatch | src/helper.rs:61-63 | a batch reply gives "NOT ONE", whatever its outputs and whatever the shape |
| Helper.ParseFailure | src/helper.rs:65-70 | a single Failure output gives that remote error, whatever the shape |
| Helper.ParseSuccess | src/helper.rs:71-74 | for a single Success output, parse returns v exactly when the decoder returns v, and passes on the decoder's error message |
| Helper.ParseOkOnlyOnSingleSuccess | src/helper.rs:53-75 | parse succeeds if and only if the body is text, holds one Success output, and its result decodes |
| Json.AsU64 | src/app.rs:167 | `as_u64` gives a value exactly for a non-negative integer, and gives that integer |
| App.ToHashMap | src/app.rs:26-30 | the keys are exactly the entities of the rows, and each key maps to a row of that entity |
| App.ToHashMapLastWins | src/app.rs:26-30 | when an entity appears more than once, the last of its rows is kept |
| App.InitialState | src/app.rs:60-70 | the defaults: download Idle, no query, an empty snapshot, no error, empty entities hidden. Discovery is due on the first frame and the Fetch button is disabled |
| App.TemplateApp.constructor | src/app.rs:60-70 | a new application is in the default state |
| App.GetUrl | src/app.rs:88-92 | the URL is `http://127.0.0.1:15702/` |
| App.TemplateApp.FetchList | src/app.rs:94-100 | marks the download in progress and sends `bevy/list` with no params, numbered by the counter |
| App.TemplateApp.OnListResponse | src/app.rs:101-126 | applies the discovery callback to the state |
| App.ListOutcomeCases | src/app.rs:101-115 | the type list is reached exactly on a delivered 2xx reply that parses. A transport error stores its text; a failure status or a parse failure stores the response itself |
| App.ListCompletedEffect | src/app.rs:101-126 | the download always ends. Success installs the query of the discovered types and clears the error. A failure records the error and keeps the query. The snapshot is never touched |
| App.EmptyDiscovery | src/app.rs:117-124 | an empty type list still yields a query (no types, no filter), and Fetch is then enabled |
| App.QueryNeverReset | src/app.rs:117-124 | once a query exists, a dispatch, a fetch or destroy completion and the control row leave it unchanged, and a discovery completion keeps one present |
| App.DiscoveryOrFetch | src/app.rs:229-239 | discovery and the Fetch button are never both active, and one of them is active exactly when nothing is downloading |
| App.TemplateApp.DispatchFetch | src/app.rs:240-250 | marks the download in progress and sends `bevy/query` carrying the current query, numbered by the counter |
| App.TemplateApp.OnFetchResponse | src/app.rs:251-273 | applies the fetch callback to the state |
| App.FetchOutcomeCases | src/app.rs:251-271 | the rows are reached exactly on a delivered 2xx reply that parses. A transport error stores its text, a failure status the response, and a parse failure the parse message |
| App.FetchCompletedEffect | src/app.rs:251-271 | the download always ends. Success replaces the snapshot wholesale by the rows and clears the error. A failure records the error and keeps the old snapshot and the query |
| App.FullRefresh | src/app.rs:263-267 | after two completions, a successful last one alone decides the snapshot, whatever the first did |
| App.TemplateApp.ControlRow | src/app.rs:229-277 | the control row of a frame: its new state, its requests, and a counter advanced once per request |
| App.ControlRowCases | src/app.rs:229-277 | `bevy/list` is sent exactly when discovery is due, and `bevy/query` exactly when the enabled Fetch button is clicked. At most one request per frame, and a request exactly when the download becomes in progress. The checkbox toggles only while the button is enabled. Snapshot, query and error are unchanged |
| App.DisplayGuard | src/app.rs:284-308 | the entity list is shown exactly when the snapshot is non-empty and there is no error. An error is shown in preference to the empty-snapshot message |
| App.RenderedNotice | src/app.rs:284-308 | with an error or an empty snapshot, the frame shows the notice and sends no destroy |
| Tree.Roots | src/app.rs:309-322 | an entity is a root exactly when it is in the snapshot and its row has no `Parent` component |
| Tree.Enumerate | src/app.rs:309-322 | the roots are collected into a sequence holding each of them exactly once |
| App.TemplateApp.Render | src/app.rs:284-338 | the lower part of a frame: the notice, or the roots in the order taken with their headers, and the destroy requests numbered from the counter |
| App.TemplateApp.DrawRoots | src/app.rs:323-338 | the root loop draws the headers of the roots in the order given and sends the destroys of exactly the roots that returned Remove, numbered on from the counter |
| Tree.RootStep | src/app.rs:323-337 | one more root adds its header, when drawn, and its destroy, when it returned Remove |
| App.DestroyRequestsSnoc | src/app.rs:326-332 | one more target adds one destroy, numbered after the earlier ones |
| App.RenderedForest | src/app.rs:309-337 | otherwise the headers at the top level are exactly the drawable roots. Each destroy sent is for a drawable root whose own open header's Remove button was clicked, numbered on from the counter |
| App.TemplateApp.DispatchDestroy | src/app.rs:326-332 | sends `bevy/destroy` with the entity as params, numbered by the counter; the state is untouched |
| App.TemplateApp.OnDestroyResponse | src/app.rs:333-335 | applies the destroy callback, whatever the response |
| App.DestroyKeepsSnapshot | src/app.rs:333-335 | a destroy changes only the download flag: the entity stays in the snapshot until the next fetch, and Fetch becomes enabled even if a fetch is in flight |
| App.DestroyRequests | src/app.rs:323-337 | one destroy per target, in order, numbered on from the first id |
| App.AdvanceAdds | src/helper.rs:20 | advancing the counter m times and then n times is advancing it m + n times |
| App.TemplateApp.Update | src/app.rs:211-342 | one frame: the control row, then the lower part on the new state; the counter advances once per request sent |
| App.TemplateApp.DrawEntity | src/app.rs:129-198 | the recursive header drawing computes the walk of the entity under the current open headers |
| Tree.Walk | src/app.rs:129-198 | a header is drawn exactly for a drawable entity, and it is that entity's header, labelled from its Name component. Remove is reported only for a drawn header whose own button was clicked |
| Tree.WalkCases | src/app.rs:135-156 | nothing is drawn for a dangling id, or for an empty entity when empty entities are hidden. A drawn header carries the label of its entity's Name. The body is shown exactly when the header is open. The action is Remove exactly when the open header's own button was clicked |
| Tree.HeaderLabel | src/app.rs:143-150 | no name part without a Name component. With one, the `name` string of an object, "NONE" for any other value, and the panic exactly for an object without a string `name` |
| Tree.WalkBody | src/app.rs:157-194 | an open body lists the `Children` when present and an array. A `Children` value that is not an array ends the body before the dump. The dump leaves out the two reserved keys. The children drawn are the drawable listed ids, in order |
| Tree.WalkChildren | src/app.rs:167-170 | no more children are drawn than ids are listed, and each is a listed id in the snapshot |
| Tree.WalkChildrenEntities | src/app.rs:167-170 | the children drawn are exactly the drawable ids of the list, in list order, repetitions included |
| Tree.DrawnIds | src/app.rs:167-170 | holds only drawable listed ids, and every drawable listed id |
| Tree.U64Entries | src/app.rs:167 | the non-negative integers of an array, keeping its order and dropping every other value |
| Tree.U64EntriesAppend | src/app.rs:167 | filtering the array distributes over concatenation, so order is kept |
| Tree.NameLabel | src/app.rs:144-150 | an object `Name` gives its `name` string, and any other value gives "NONE" |
| Tree.BelowShrinks | src/app.rs:151-153 | entering an open header leaves strictly fewer open headers below, so the walk ends |
| Tree.Dump | src/app.rs:173-194 | the dump lists every component except `Parent` and `Children`. A component is a bare label exactly when its value is the empty object, and is otherwise expandable with its value |
| Tree.DumpComponents | src/app.rs:174-194 | the loop over the component map builds exactly that dump |
| Tree.RemoveTargetsExactly | src/app.rs:323-337 | a destroy target is exactly a drawable root, in the order taken, whose own open header had Remove clicked |
| Tree.RootViewsEntities | src/app.rs:323-325 | the top-level headers are exactly those of the drawable roots in the order taken |
| Tree.EntitiesOf | src/app.rs:168-170 | the entity of each drawn header, position by position |

## Left out

- Rendering: egui layout, styling, fonts, the custom window frame, the window
  chrome and `clear_color` are not modelled. A frame is modelled only by what it
  shows: a notice, or a tree of headers with their labels and dumps.
- Persistence: eframe persistence (`save`, `new` reading storage) and `main.rs` are
  not modelled. Only `skip_empty_entities` would persist, and the model always
  starts from the defaults.
- Concurrency: the ehttp transport, its worker thread and the mutexes are not
  modelled. Each callback is one atomic step that the environment may apply at
  any time, in any order; the transport's outcome is a parameter. Repaint requests
  are not modelled.
- Serialisation: serde serialisation is abstract. Request params stay typed, and a
  request body is the envelope itself, not its bytes. The `expect`/`unwrap` on
  `to_value`/`to_string` cannot fail on these types.
- `Tree.Dump`: `to_string_pretty` is not modelled. A component's text is "{}"
  exactly when its value is the empty object, and the `continue` on a
  pretty-printing error is not modelled, since it cannot fail on a JSON value.
- Decoding: `serde_json::from_value` into `Vec<String>` or `Vec<BrpQueryRow>` is a
  decoding function passed as a parameter. Its error message is whatever that
  function returns.
- Invalid JSON: the panic in `parse` on a body that is not valid JSON-RPC JSON is
  not modelled. The response text is given already parsed, or as absent when it is
  not UTF-8.
- Remote errors: the display text of a JSON-RPC Failure is not modelled. The model
  keeps the error object and id (`Helper.ParseError.RemoteFailure`).
- `{:#?}`: the Debug text stored in `error_info` is not modelled. The model keeps
  the value that would be formatted (`App.ErrorInfo`).
- `Tree.HeaderLabel`: the unwraps at `src/app.rs:147` panic on an object `Name`
  without a string `name`. The model marks that header `NamePanics` and draws on,
  where the program aborts. `Tree.NameLabel` is called only on readable values.
- Entity ids: `Entity::from_bits` panics on bits that are not a valid entity, and
  the model does not represent that panic: every `u64` child id is taken as an
  entity. `Entity::to_string` is not modelled; a header carries the entity itself
  and the part of its label that follows the id.
- Header ids: egui keys a header's open state by its label under its parent's id.
  The model keys it by the path of entities from the root, which is the same key,
  since a label begins with the entity's id. A child listed twice in one
  `Children` array gets the same key both times, so both copies share one open
  state, as in egui.
- Ordering: `HashMap` iteration order is not modelled. The component dump is a map,
  and the order of the roots is whatever `Tree.Enumerate` picks, each root once.
- Unused fields: the `headers` of a request are not modelled. A response's status code
  is carried but never read; only its `ok` flag decides a branch, as in the program.
- Bevy constants: the method names, the default address and port, and the
  component keys come from the Bevy library, which is not part of this model. The
  model uses the values of Bevy 0.15.
