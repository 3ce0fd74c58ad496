/** The types and constants of the Bevy Remote Protocol that the inspector consumes.
    They belong to the Bevy library; only their shape matters to the model. */
module Brp {
  import opened Json

  /** `Entity` as an opaque 64-bit identifier: equal exactly when the bits are equal. */
  datatype EntityId = EntityId(bits: u64)

  const ListMethod := "bevy/list"
  const QueryMethod := "bevy/query"
  const DestroyMethod := "bevy/destroy"

  const DefaultAddr := "127.0.0.1"
  const DefaultPort: nat := 15702

  /** The component type names the inspector treats specially. */
  const NameKey := "bevy_core::name::Name"
  const ChildrenKey := "bevy_hierarchy::components::children::Children"
  const ParentKey := "bevy_hierarchy::components::parent::Parent"

  /** One row of a `bevy/query` result: an entity, its serialised components and its "has" checks. */
  datatype QueryRow = QueryRow(entity: EntityId, components: map<string, Value>, has: map<string, Value>)

  datatype Query = Query(components: seq<string>, option: seq<string>, has: seq<string>)

  datatype QueryFilter = QueryFilter(without: seq<string>, with: seq<string>)

  /** `BrpQueryFilter::default()`: no filter at all. */
  const DefaultFilter := QueryFilter([], [])

  datatype QueryParams = QueryParams(data: Query, filter: QueryFilter)

  datatype DestroyParams = DestroyParams(entity: EntityId)
}
