/** The location records the mobile screens read. The list itself is data bundled with the
    app and is a parameter everywhere in this model. */
module Locations {
  import opened Common

  /** `parent_location_id`: JavaScript distinguishes `null`, a missing field and an id. */
  datatype ParentRef = NullParent | NoParentField | ParentId(id: string)

  datatype Location = Location(
    id: string,
    name: string,
    kind: string,
    city: string,
    parent: ParentRef,
    activityTags: Option<seq<string>>,
    approxDistFromParent: Option<string>)
}
