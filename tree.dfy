/** What `draw_entity` and the root selection of `update` show for a snapshot (src/app.rs). */
module Tree {
  import opened Wrappers
  import opened Json
  import opened Brp

  /** The snapshot of the world: each entity's last fetched row. */
  type Snapshot = map<EntityId, QueryRow>

  /** The entities from a root down to a header. egui keeps a collapsing header's open
      state per position in the header tree, so a path identifies one header. */
  type Path = seq<EntityId>

  /** The user's side of one frame: the headers that are open and the headers whose
      "Remove entity" button was clicked. Both are finite. */
  datatype Expansion = Expansion(expanded: set<Path>, removeClicked: set<Path>)

  datatype Action = NoAction | Remove

  /** How one component appears in the dump: a bare label, or a header holding its value. */
  datatype Shown = Bare | Expandable(value: Value)

  /** The children part of an open header. */
  datatype Children =
    | NoChildren                 // no Children component
    | NotAnArray                 // a Children component that is not an array: the body stops
    | Listed(views: seq<View>)   // the children drawn, in order

  datatype Body = Collapsed | Open(children: Children, dump: Option<map<string, Shown>>)

  /** The part of a header's label after the entity id: nothing without a Name
      component, the name text after ": " with one, or the point where reading the
      Name panics. */
  datatype Label = Unnamed | Named(text: string) | NamePanics

  /** One drawn header: the entity, its label, and its body. */
  datatype View = View(entity: EntityId, caption: Label, body: Body)

  /** What one call of `draw_entity` yields: the header it drew, if any, and its action. */
  datatype Drawn = Drawn(view: Option<View>, action: Action)

  /** The u64 entries of a Children array, in order; other entries are dropped. */
  function U64Entries(items: seq<Value>): (r: seq<u64>)
    ensures |r| <= |items|
    ensures forall x :: x in r ==> Num(PosInt(x)) in items
    ensures forall x :: Num(PosInt(x)) in items ==> x in r
  {
    if items == [] then []
    else
      var last := items[|items| - 1];
      U64Entries(items[..|items| - 1]) + (match AsU64(last) case Some(x) => [x] case None => [])
  }

  lemma {:induction false} U64EntriesAppend(a: seq<Value>, b: seq<Value>)
    ensures U64Entries(a + b) == U64Entries(a) + U64Entries(b)
    decreases |b|
  {
    if b == [] {
      assert a + b == a;
    } else {
      var b' := b[..|b| - 1];
      assert (a + b)[..|a + b| - 1] == a + b';
      U64EntriesAppend(a, b');
    }
  }

  /** A Name value the label code reads without panicking: an object must hold a
      string `name`. */
  predicate NameReadable(name: Value) {
    name.Object? ==> "name" in name.fields && name.fields["name"].Str?
  }

  /** The label text after the entity id: the `name` string of an object-valued Name
      component, "NONE" for any other value. */
  function NameLabel(name: Value): (r: string)
    requires NameReadable(name)
    ensures name.Object? ==> r == name.fields["name"].s
    ensures !name.Object? ==> r == "NONE"
  {
    if name.Object? then name.fields["name"].s else "NONE"
  }

  /** The label of the header drawn for a component bag. */
  function HeaderLabel(bag: map<string, Value>): (r: Label)
    ensures r == Unnamed <==> NameKey !in bag
    ensures r == NamePanics <==> NameKey in bag && !NameReadable(bag[NameKey])
    ensures r.Named? && bag[NameKey].Object? ==> r.text == bag[NameKey].fields["name"].s
    ensures r.Named? && !bag[NameKey].Object? ==> r.text == "NONE"
  {
    if NameKey !in bag then Unnamed
    else if NameReadable(bag[NameKey]) then Named(NameLabel(bag[NameKey]))
    else NamePanics
  }

  /** The component dump of an open header. */
  function Dump(bag: map<string, Value>): (d: map<string, Shown>)
    ensures d.Keys == bag.Keys - {ParentKey, ChildrenKey}
    ensures forall k :: k in d ==> (d[k] == Bare <==> IsEmptyObject(bag[k]))
    ensures forall k :: k in d && d[k].Expandable? ==> d[k].value == bag[k]
  {
    map k | k in bag && k != ParentKey && k != ChildrenKey :: if IsEmptyObject(bag[k]) then Bare else Expandable(bag[k])
  }

  /** The open headers strictly below `prefix`. */
  ghost function Below(expanded: set<Path>, prefix: Path): set<Path> {
    set p | p in expanded && |prefix| < |p| && p[..|prefix|] == prefix
  }

  /** Descending into an open header leaves fewer open headers below. */
  lemma BelowShrinks(expanded: set<Path>, prefix: Path, e: EntityId)
    requires prefix + [e] in expanded
    ensures Below(expanded, prefix + [e]) + {prefix + [e]} <= Below(expanded, prefix)
    ensures prefix + [e] !in Below(expanded, prefix + [e])
  {
    var path := prefix + [e];
    forall p | p in Below(expanded, path) ensures p in Below(expanded, prefix) {
      assert p[..|prefix|] == p[..|path|][..|prefix|];
    }
    assert path[..|prefix|] == prefix;
  }

  /** True when `draw_entity` draws a header for `e`: it is in the snapshot, and its
      component bag is not empty unless empty entities are shown. */
  predicate Drawable(components: Snapshot, skipEmpty: bool, e: EntityId) {
    e in components && !(skipEmpty && |components[e].components| == 0)
  }

  /** `draw_entity` for the header of `e` below `prefix`. It recurses only through open
      headers; the set of open headers is finite, which is why it terminates although
      the Children data may contain cycles. */
  function Walk(components: Snapshot, skipEmpty: bool, ui: Expansion, prefix: Path, e: EntityId): (r: Drawn)
    ensures r.view.Some? <==> Drawable(components, skipEmpty, e)
    ensures r.view.Some? ==> r.view.value.entity == e
    ensures r.view.Some? ==> r.view.value.caption == HeaderLabel(components[e].components)
    ensures r.action == Remove ==> r.view.Some? && prefix + [e] in ui.removeClicked
    decreases Below(ui.expanded, prefix), 1, 0
  {
    if !Drawable(components, skipEmpty, e) then Drawn(None, NoAction)
    else
      var bag := components[e].components;
      var path := prefix + [e];
      var name := HeaderLabel(bag);
      if path !in ui.expanded then Drawn(Some(View(e, name, Collapsed)), NoAction)
      else
        var action := if path in ui.removeClicked then Remove else NoAction;
        if ChildrenKey !in bag then Drawn(Some(View(e, name, Open(NoChildren, Some(Dump(bag))))), action)
        else if !bag[ChildrenKey].Array? then Drawn(Some(View(e, name, Open(NotAnArray, None))), action)
        else
          BelowShrinks(ui.expanded, prefix, e);
          var kids := WalkChildren(components, skipEmpty, ui, path, U64Entries(bag[ChildrenKey].items));
          Drawn(Some(View(e, name, Open(Listed(kids), Some(Dump(bag))))), action)
  }

  /** The headers drawn for the child ids `ids` of the open header `parent`, in order;
      the children's actions are dropped. */
  function WalkChildren(components: Snapshot, skipEmpty: bool, ui: Expansion, parent: Path, ids: seq<u64>): (r: seq<View>)
    requires parent in ui.expanded
    ensures |r| <= |ids|
    ensures forall v :: v in r ==> v.entity in components && v.entity.bits in ids
    decreases Below(ui.expanded, parent) + {parent}, 0, |ids|
  {
    if ids == [] then []
    else
      var child := Walk(components, skipEmpty, ui, parent, EntityId(ids[|ids| - 1]));
      WalkChildren(components, skipEmpty, ui, parent, ids[..|ids| - 1])
        + (if child.view.Some? then [child.view.value] else [])
  }

  /** The entities of a list of headers. */
  function EntitiesOf(views: seq<View>): (r: seq<EntityId>)
    ensures |r| == |views|
    ensures forall i :: 0 <= i < |views| ==> r[i] == views[i].entity
  {
    if views == [] then [] else EntitiesOf(views[..|views| - 1]) + [views[|views| - 1].entity]
  }

  /** The child ids that name a drawable entity, in order: dangling ids are left out. */
  function DrawnIds(components: Snapshot, skipEmpty: bool, ids: seq<u64>): (r: seq<EntityId>)
    ensures forall x :: x in r ==> x.bits in ids && Drawable(components, skipEmpty, x)
    ensures forall i :: 0 <= i < |ids| && Drawable(components, skipEmpty, EntityId(ids[i])) ==> EntityId(ids[i]) in r
  {
    if ids == [] then []
    else
      var last := EntityId(ids[|ids| - 1]);
      DrawnIds(components, skipEmpty, ids[..|ids| - 1]) + (if Drawable(components, skipEmpty, last) then [last] else [])
  }

  /** What one call of `draw_entity` does, case by case: it draws a header exactly for a
      drawable entity; the body is shown exactly for an open header; the action is
      Remove exactly when that header's own button was clicked; a Children value that
      is not an array ends the body before the dump; the reserved keys never appear in
      the dump. */
  lemma WalkCases(components: Snapshot, skipEmpty: bool, ui: Expansion, prefix: Path, e: EntityId)
    ensures var d := Walk(components, skipEmpty, ui, prefix, e);
      && (d.view.Some? <==> Drawable(components, skipEmpty, e))
      && (d.view.None? ==> d.action == NoAction)
      && (d.view.Some? ==> d.view.value.entity == e)
      && (d.view.Some? ==> d.view.value.caption == HeaderLabel(components[e].components))
      && (d.view.Some? ==> (d.view.value.body.Open? <==> prefix + [e] in ui.expanded))
      && (d.action == Remove <==>
            Drawable(components, skipEmpty, e) && prefix + [e] in ui.expanded && prefix + [e] in ui.removeClicked)
  {
  }

  lemma WalkBody(components: Snapshot, skipEmpty: bool, ui: Expansion, prefix: Path, e: EntityId)
    requires Walk(components, skipEmpty, ui, prefix, e).view.Some?
    requires Walk(components, skipEmpty, ui, prefix, e).view.value.body.Open?
    ensures var bag := components[e].components;
      var body := Walk(components, skipEmpty, ui, prefix, e).view.value.body;
      && (body.children.NoChildren? <==> ChildrenKey !in bag)
      && (body.children.NotAnArray? <==> ChildrenKey in bag && !bag[ChildrenKey].Array?)
      && (body.dump.None? <==> body.children.NotAnArray?)
      && (body.dump.Some? ==> body.dump.value == Dump(bag) && ParentKey !in body.dump.value && ChildrenKey !in body.dump.value)
      && (body.children.Listed? ==>
            EntitiesOf(body.children.views) == DrawnIds(components, skipEmpty, U64Entries(bag[ChildrenKey].items)))
  {
    var bag := components[e].components;
    if ChildrenKey in bag && bag[ChildrenKey].Array? {
      BelowShrinks(ui.expanded, prefix, e);
      WalkChildrenEntities(components, skipEmpty, ui, prefix + [e], U64Entries(bag[ChildrenKey].items));
    }
  }

  /** The children drawn under an open header are exactly the drawable child ids, in the
      order of the Children array: dangling and filtered ids are skipped. */
  lemma {:induction false} WalkChildrenEntities(components: Snapshot, skipEmpty: bool, ui: Expansion, parent: Path, ids: seq<u64>)
    requires parent in ui.expanded
    ensures EntitiesOf(WalkChildren(components, skipEmpty, ui, parent, ids)) == DrawnIds(components, skipEmpty, ids)
    decreases |ids|
  {
    if ids != [] {
      var init := ids[..|ids| - 1];
      var last := EntityId(ids[|ids| - 1]);
      WalkChildrenEntities(components, skipEmpty, ui, parent, init);
      WalkCases(components, skipEmpty, ui, parent, last);
      var child := Walk(components, skipEmpty, ui, parent, last);
      var rest := WalkChildren(components, skipEmpty, ui, parent, init);
      var extra := if child.view.Some? then [child.view.value] else [];
      assert WalkChildren(components, skipEmpty, ui, parent, ids) == rest + extra;
      EntitiesOfAppend(rest, extra);
    }
  }

  lemma {:induction false} EntitiesOfAppend(a: seq<View>, b: seq<View>)
    ensures EntitiesOf(a + b) == EntitiesOf(a) + EntitiesOf(b)
  {
    var l, r := EntitiesOf(a + b), EntitiesOf(a) + EntitiesOf(b);
    assert |l| == |r|;
    forall i | 0 <= i < |l| ensures l[i] == r[i] {
      if i < |a| { assert (a + b)[i] == a[i]; } else { assert (a + b)[i] == b[i - |a|]; }
    }
  }

  // ----- the roots and the frame -----

  /** The roots: the entities whose component bag has no Parent component. */
  function Roots(components: Snapshot): (r: set<EntityId>)
    ensures forall e :: e in r <==> e in components && ParentKey !in components[e].components
  {
    set e | e in components && ParentKey !in components[e].components
  }

  /** The headers drawn for the roots, taken in the order `order`. */
  function RootViews(components: Snapshot, skipEmpty: bool, ui: Expansion, order: seq<EntityId>): seq<View> {
    if order == [] then []
    else
      var d := Walk(components, skipEmpty, ui, [], order[|order| - 1]);
      RootViews(components, skipEmpty, ui, order[..|order| - 1]) + (if d.view.Some? then [d.view.value] else [])
  }

  /** The roots, in the order `order`, whose drawing returned Remove. */
  function RemoveTargets(components: Snapshot, skipEmpty: bool, ui: Expansion, order: seq<EntityId>): seq<EntityId> {
    if order == [] then []
    else
      var e := order[|order| - 1];
      RemoveTargets(components, skipEmpty, ui, order[..|order| - 1])
        + (if Walk(components, skipEmpty, ui, [], e).action == Remove then [e] else [])
  }

  /** Taking one more root extends the headers and the destroy targets by what drawing
      that root gives. */
  lemma RootStep(components: Snapshot, skipEmpty: bool, ui: Expansion, order: seq<EntityId>, i: nat)
    requires i < |order|
    ensures var d := Walk(components, skipEmpty, ui, [], order[i]);
      && RootViews(components, skipEmpty, ui, order[..i + 1])
         == RootViews(components, skipEmpty, ui, order[..i]) + (if d.view.Some? then [d.view.value] else [])
      && RemoveTargets(components, skipEmpty, ui, order[..i + 1])
         == RemoveTargets(components, skipEmpty, ui, order[..i]) + (if d.action == Remove then [order[i]] else [])
  {
    assert order[..i + 1][..i] == order[..i];
  }

  /** A destroy is requested exactly for the roots whose own, open header had its
      Remove button clicked; a click inside a child header never leads to a destroy. */
  lemma {:induction false} RemoveTargetsExactly(components: Snapshot, skipEmpty: bool, ui: Expansion, order: seq<EntityId>)
    ensures forall e :: e in RemoveTargets(components, skipEmpty, ui, order) <==>
      e in order && Drawable(components, skipEmpty, e) && [e] in ui.expanded && [e] in ui.removeClicked
  {
    if order != [] {
      var init := order[..|order| - 1];
      var last := order[|order| - 1];
      RemoveTargetsExactly(components, skipEmpty, ui, init);
      WalkCases(components, skipEmpty, ui, [], last);
      assert [] + [last] == [last];
      assert order == init + [last];
    }
  }

  /** The roots drawn are the drawable roots, in the order taken. */
  lemma {:induction false} RootViewsEntities(components: Snapshot, skipEmpty: bool, ui: Expansion, order: seq<EntityId>)
    ensures forall v :: v in RootViews(components, skipEmpty, ui, order) ==>
      v.entity in order && Drawable(components, skipEmpty, v.entity)
    ensures forall e :: e in order && Drawable(components, skipEmpty, e) ==>
      exists v :: v in RootViews(components, skipEmpty, ui, order) && v.entity == e
  {
    if order != [] {
      var init := order[..|order| - 1];
      var last := order[|order| - 1];
      RootViewsEntities(components, skipEmpty, ui, init);
      WalkCases(components, skipEmpty, ui, [], last);
      assert order == init + [last];
    }
  }

  /** `for (key, field) in item.components.iter()` with its two `continue`s and the
      `{}` test: builds the dump one component at a time, in the map's own order. */
  method DumpComponents(bag: map<string, Value>) returns (dump: map<string, Shown>)
    ensures dump == Dump(bag)
  {
    dump := map[];
    var rest := bag.Keys;
    while rest != {}
      invariant rest <= bag.Keys
      invariant dump.Keys == (bag.Keys - rest) - {ParentKey, ChildrenKey}
      invariant forall k :: k in dump ==> dump[k] == Dump(bag)[k]
      decreases rest
    {
      var key :| key in rest;
      rest := rest - {key};
      if key == ParentKey || key == ChildrenKey {
        continue;
      }
      var field := bag[key];
      if IsEmptyObject(field) {
        dump := dump[key := Bare];
        continue;
      }
      dump := dump[key := Expandable(field)];
    }
  }

  /** Collects a set into a list in some order, each element once (the iteration order
      of a hash map is not specified). */
  method Enumerate(s: set<EntityId>) returns (order: seq<EntityId>)
    ensures forall e :: e in order <==> e in s
    ensures forall i, j :: 0 <= i < j < |order| ==> order[i] != order[j]
  {
    order := [];
    var rest := s;
    while rest != {}
      invariant rest <= s
      invariant forall e :: e in order <==> e in s - rest
      invariant forall i, j :: 0 <= i < j < |order| ==> order[i] != order[j]
      decreases rest
    {
      var e :| e in rest;
      assert e !in order;
      order := order + [e];
      rest := rest - {e};
    }
  }
}
