/**
 * The `Location` collection: documents keyed by their generated id. The
 * controllers read it and write it through the ODM; here they read and
 * assign the `locations` field.
 */
module Store {
  import opened Js
  import opened Schema

  ghost predicate AllValidIn(m: map<string, Location>) {
    forall id :: id in m ==> ValidLocation(m[id])
  }

  /** Storing a valid document keeps a valid collection valid. */
  lemma StoreKeepsValid(m: map<string, Location>, id: string, l: Location)
    requires AllValidIn(m) && ValidLocation(l)
    ensures AllValidIn(m[id := l])
  {
  }

  class LocationStore {
    var locations: map<string, Location>

    /** Generated ids are never empty, so a missing id never finds a document. */
    ghost predicate Valid()
      reads this
    {
      "" !in locations
    }

    /** Every stored document satisfies the schema. */
    ghost predicate AllValid()
      reads this
    {
      AllValidIn(locations)
    }

    constructor ()
      ensures Valid() && AllValid()
      ensures locations == map[]
    {
      locations := map[];
    }
  }
}
