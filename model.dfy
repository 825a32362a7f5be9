/** The records passed between the stages: model/village.py, model/augmented.py and the
    candidate dictionaries built by the result parser. */
module Model {

  /** One village identity row (`VillageInput`). */
  datatype Village = Village(
    villageCode: string,
    village: string,
    districtCode: string,
    district: string,
    city: string,
    province: string)

  /** One lookup-result row, a dictionary from field name to text. */
  type Candidate = map<string, string>

  /** `candidate.get(key, "")`: a missing field reads as the empty string. */
  function Get(c: Candidate, key: string): string
  {
    if key in c then c[key] else ""
  }

  /** An accepted match (`AugmentedPostalCode`); `retrievedAt` is the clock reading. */
  datatype Record = Record(
    villageCode: string,
    postalCode: string,
    source: string,
    confidence: real,
    retrievedAt: string,
    raw: Candidate)
}
