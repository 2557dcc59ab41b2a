/** Configuration versions as the loops that apply them see them. */
module Targets {
  import opened PyValues

  type VersionId = nat

  /** The target a tick reads: a version and its fields. */
  datatype Target = Target(id: VersionId, fields: map<Field, Value>)

  /** The store's version table: rows never change. */
  type Versions = map<VersionId, map<Field, Value>>
}
