/** sources/pos_indonesia.py: result-table rows to candidate dictionaries. */
module PosIndonesia {
  import opened Wrappers
  import opened Seqs
  import opened Text
  import opened Model

  /** The text of every cell of one table row, as the HTML parser gives it. */
  type Cells = seq<string>

  /** The five fields every parsed candidate has. */
  ghost predicate WellFormed(c: Candidate)
  {
    "postal_code" in c && "village" in c && "district" in c && "city" in c && "province" in c
  }

  /** One row: dropped below six cells; otherwise cells 1 to 5, stripped, are the postal code,
      village, district, city and province. */
  function CandidateOf(cells: Cells): (r: Option<Candidate>)
    ensures r.Some? <==> |cells| >= 6
    ensures r.Some? ==> WellFormed(r.value) && r.value.Keys == {"postal_code", "village", "district", "city", "province"}
  {
    if |cells| < 6 then None
    else
      Some(map["postal_code" := Strip(cells[1]), "village" := Strip(cells[2]), "district" := Strip(cells[3]),
               "city" := Strip(cells[4]), "province" := Strip(cells[5])])
  }

  /** The candidates of a whole result table. */
  function Candidates(rows: seq<Cells>): seq<Candidate>
  {
    FilterMap(rows, CandidateOf)
  }

  /** `parse_postal_results`, from the row cells onwards. */
  method ParsePostalResults(rows: seq<Cells>) returns (results: seq<Candidate>)
    ensures results == Candidates(rows)
    ensures forall k :: 0 <= k < |results| ==> WellFormed(results[k])
  {
    results := [];
    for i := 0 to |rows|
      invariant results == FilterMap(rows[..i], CandidateOf)
      invariant forall k :: 0 <= k < |results| ==> WellFormed(results[k])
    {
      assert rows[..i + 1][..i] == rows[..i];
      var cols := rows[i];
      if |cols| < 6 {
        continue;
      }
      results := results + [map["postal_code" := Strip(cols[1]), "village" := Strip(cols[2]),
                                 "district" := Strip(cols[3]), "city" := Strip(cols[4]),
                                 "province" := Strip(cols[5])]];
    }
    assert rows[..|rows|] == rows;
  }

  /** One candidate per row of at least six cells, in row order, each read off its own row's
      cells 1 to 5 (cell 0 and any cell past 5 play no part). */
  lemma {:induction false} CandidatesFollowRows(rows: seq<Cells>) returns (idx: seq<nat>)
    ensures |idx| == |Candidates(rows)| && Increasing(idx)
    ensures forall t :: 0 <= t < |idx| ==>
              idx[t] < |rows| && |rows[idx[t]]| >= 6
              && Candidates(rows)[t] == map["postal_code" := Strip(rows[idx[t]][1]), "village" := Strip(rows[idx[t]][2]),
                                            "district" := Strip(rows[idx[t]][3]), "city" := Strip(rows[idx[t]][4]),
                                            "province" := Strip(rows[idx[t]][5])]
    ensures forall i :: 0 <= i < |rows| && |rows[i]| >= 6 ==> exists t :: 0 <= t < |idx| && idx[t] == i
  {
    idx := FilterMapIndices(rows, CandidateOf);
  }

  /** Every candidate is well formed. */
  lemma {:induction false} CandidatesWellFormed(rows: seq<Cells>)
    ensures forall k :: 0 <= k < |Candidates(rows)| ==> WellFormed(Candidates(rows)[k])
  {
    var idx := FilterMapIndices(rows, CandidateOf);
  }
}
