/** ingest/region_id_loader.py: identity rows to village records. */
module RegionIdLoader {
  import opened Wrappers
  import opened Seqs
  import opened Text
  import opened Model

  /** One row of the identity table, column name to cell text; an absent column is absent. */
  type Row = map<string, string>

  /** `(row.get(name) or "").strip()`. */
  function Field(row: Row, name: string): (r: string)
    ensures name !in row ==> r == ""
    ensures name in row ==> r == Strip(row[name])
    ensures Trimmed(r)
  {
    if name in row then Strip(row[name]) else ""
  }


  /** A row is kept when its village code and its four names are non-empty after trimming;
      the district code may be empty. */
  function VillageOf(row: Row): (r: Option<Village>)
    ensures r.Some? ==> r.value == Village(Field(row, "village_code"), Field(row, "village_name"),
                                           Field(row, "district_code"), Field(row, "district_name"),
                                           Field(row, "regency_name"), Field(row, "province_name"))
  {
    var villageCode := Field(row, "village_code");
    var village := Field(row, "village_name");
    var districtCode := Field(row, "district_code");
    var district := Field(row, "district_name");
    var city := Field(row, "regency_name");
    var province := Field(row, "province_name");
    if villageCode == "" then None
    else if village == "" || district == "" || city == "" || province == "" then None
    else Some(Village(villageCode, village, districtCode, district, city, province))
  }

  /** A village with every field trimmed and everything but the district code non-empty. */
  ghost predicate Complete(v: Village)
  {
    && v.villageCode != "" && v.village != "" && v.district != "" && v.city != "" && v.province != ""
    && Trimmed(v.villageCode) && Trimmed(v.village) && Trimmed(v.districtCode)
    && Trimmed(v.district) && Trimmed(v.city) && Trimmed(v.province)
  }

  /** The villages of a whole table. */
  function Villages(rows: seq<Row>): seq<Village>
  {
    FilterMap(rows, VillageOf)
  }

  /** `load_villages_from_region_id`, from the parsed rows onwards. */
  method LoadVillagesFromRegionId(rows: seq<Row>) returns (villages: seq<Village>)
    ensures villages == Villages(rows)
    ensures forall k :: 0 <= k < |villages| ==> Complete(villages[k])
  {
    villages := [];
    for i := 0 to |rows|
      invariant villages == FilterMap(rows[..i], VillageOf)
      invariant forall k :: 0 <= k < |villages| ==> Complete(villages[k])
    {
      assert rows[..i + 1][..i] == rows[..i];
      var row := rows[i];
      var villageCode := Field(row, "village_code");
      var village := Field(row, "village_name");
      var districtCode := Field(row, "district_code");
      var district := Field(row, "district_name");
      var city := Field(row, "regency_name");
      var province := Field(row, "province_name");
      if villageCode == "" {
        assert VillageOf(row).None?;
        continue;
      }
      if village == "" || district == "" || city == "" || province == "" {
        assert VillageOf(row).None?;
        continue;
      }
      var v := Village(villageCode, village, districtCode, district, city, province);
      assert VillageOf(row) == Some(v);
      villages := villages + [v];
    }
    assert rows[..|rows|] == rows;
  }

  /** A row is dropped exactly when its trimmed village code or one of its trimmed village,
      district, regency or province names is empty or missing. */
  lemma KeptExactly(row: Row)
    ensures VillageOf(row).Some? <==>
              Field(row, "village_code") != "" && Field(row, "village_name") != "" && Field(row, "district_name") != ""
              && Field(row, "regency_name") != "" && Field(row, "province_name") != ""
  {
  }

  /** The district code, whatever it holds or whether it is there at all, never decides
      whether a row is kept. */
  lemma DistrictCodeNeverDrops(row: Row, districtCode: string)
    ensures VillageOf(row).Some? == VillageOf(row["district_code" := districtCode]).Some?
    ensures VillageOf(row).Some? == VillageOf(row - {"district_code"}).Some?
  {
    var r1, r2 := row["district_code" := districtCode], row - {"district_code"};
    assert Field(row, "village_code") == Field(r1, "village_code") == Field(r2, "village_code");
    assert Field(row, "village_name") == Field(r1, "village_name") == Field(r2, "village_name");
    assert Field(row, "district_name") == Field(r1, "district_name") == Field(r2, "district_name");
    assert Field(row, "regency_name") == Field(r1, "regency_name") == Field(r2, "regency_name");
    assert Field(row, "province_name") == Field(r1, "province_name") == Field(r2, "province_name");
  }

  /** The loaded villages are the kept rows in input order, each read off its own row; no
      kept row is missing and every loaded village is complete. */
  lemma {:induction false} VillagesFollowRows(rows: seq<Row>) returns (idx: seq<nat>)
    ensures |idx| == |Villages(rows)| && Increasing(idx)
    ensures forall t :: 0 <= t < |idx| ==> idx[t] < |rows| && VillageOf(rows[idx[t]]) == Some(Villages(rows)[t])
    ensures forall i :: 0 <= i < |rows| && VillageOf(rows[i]).Some? ==> exists t :: 0 <= t < |idx| && idx[t] == i
    ensures forall t :: 0 <= t < |idx| ==> Complete(Villages(rows)[t])
  {
    idx := FilterMapIndices(rows, VillageOf);
  }
}
