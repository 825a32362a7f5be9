/** matchers/region_matcher.py: weighted similarity scores and their accept decision. */
module RegionMatcher {
  import opened Wrappers
  import opened Model

  /** The threshold `match_postal_candidate` uses when none is passed. */
  const DEFAULT_THRESHOLD: real := 0.8

  /** The fixed threshold of city mode. */
  const CITY_THRESHOLD: real := 0.6

  /** The external string similarity; its results are meant to lie in [0, 1]. */
  type Similarity = (string, string) -> real

  ghost predicate UnitSimilarity(sim: Similarity)
  {
    forall a, b :: 0.0 <= sim(a, b) <= 1.0
  }

  /** `round(x, 3)` on the exact value: nearest multiple of 0.001, ties to the even multiple. */
  function Round3(x: real): (r: real)
    ensures (r * 1000.0).Floor as real == r * 1000.0
    ensures x - 0.0005 <= r <= x + 0.0005
    ensures x - 0.0005 < r < x + 0.0005 || (r * 1000.0).Floor % 2 == 0
  {
    var scaled := x * 1000.0;
    var n := scaled.Floor;
    var frac := scaled - n as real;
    var m := if frac > 0.5 then n + 1 else if frac < 0.5 then n else if n % 2 == 0 then n else n + 1;
    m as real / 1000.0
  }

  /** A multiple of 0.001 is left alone by rounding. */
  lemma Round3OnGrid(k: int)
    ensures Round3(k as real / 1000.0) == k as real / 1000.0
  {
    var x := k as real / 1000.0;
    assert x * 1000.0 == k as real;
    assert (x * 1000.0).Floor == k;
  }

  /** Rounding never reverses an order. */
  lemma Round3Monotone(x: real, y: real)
    requires x <= y
    ensures Round3(x) <= Round3(y)
  {
    var nx, ny := (x * 1000.0).Floor, (y * 1000.0).Floor;
    assert nx <= ny;
    if nx == ny {
      assert x * 1000.0 - nx as real <= y * 1000.0 - ny as real;
    }
  }

  /** A value that meets a threshold on the 0.001 grid still meets it after rounding. */
  lemma Round3KeepsGridThreshold(x: real, k: int)
    ensures x >= k as real / 1000.0 ==> Round3(x) >= k as real / 1000.0
  {
    if x >= k as real / 1000.0 {
      Round3Monotone(k as real / 1000.0, x);
      Round3OnGrid(k);
    }
  }

  /** Rounding keeps a value of [0, 1] in [0, 1]. */
  lemma Round3Unit(x: real)
    requires 0.0 <= x <= 1.0
    ensures 0.0 <= Round3(x) <= 1.0
  {
    Round3KeepsGridThreshold(x, 0);
    Round3Monotone(x, 1000 as real / 1000.0);
    Round3OnGrid(1000);
  }

  /** The city-mode weighted sum. */
  function CityScore(district: real, city: real): (r: real)
    ensures 0.0 <= district <= 1.0 && 0.0 <= city <= 1.0 ==> 0.0 <= r <= 1.0
    ensures district == 1.0 && city == 1.0 ==> r == 1.0
  {
    0.6 * district + 0.4 * city
  }

  /** The village-mode weighted sum. */
  function VillageScore(village: real, district: real, province: real): (r: real)
    ensures 0.0 <= village <= 1.0 && 0.0 <= district <= 1.0 && 0.0 <= province <= 1.0 ==> 0.0 <= r <= 1.0
    ensures village == 1.0 && district == 1.0 && province == 1.0 ==> r == 1.0
  {
    0.5 * village + 0.3 * district + 0.2 * province
  }

  /** The unrounded score of `candidate` against `village` in `mode`. */
  function Score(village: Village, candidate: Candidate, mode: string, sim: Similarity): (r: real)
    ensures UnitSimilarity(sim) ==> 0.0 <= r <= 1.0
  {
    if mode == "city" then
      CityScore(sim(village.district, Get(candidate, "district")), sim(village.city, Get(candidate, "city")))
    else
      VillageScore(sim(village.village, Get(candidate, "village")),
                   sim(village.district, Get(candidate, "district")),
                   sim(village.province, Get(candidate, "province")))
  }

  /** `match_postal_candidate`: the rounded score when the candidate is accepted, None otherwise.
      City mode accepts at 0.6 whatever `threshold` is; every other mode accepts at `threshold`. */
  function MatchPostalCandidate(village: Village, candidate: Candidate, mode: string, threshold: real,
                                sim: Similarity): (r: Option<real>)
    ensures mode == "city" ==> (r.Some? <==> Score(village, candidate, mode, sim) >= CITY_THRESHOLD)
    ensures mode != "city" ==> (r.Some? <==> Score(village, candidate, mode, sim) >= threshold)
    ensures r.Some? ==> r.value == Round3(Score(village, candidate, mode, sim))
    ensures r.Some? && mode == "city" ==> r.value >= CITY_THRESHOLD
    ensures r.Some? && mode != "city" && (threshold * 1000.0).Floor as real == threshold * 1000.0 ==> r.value >= threshold
  {
    var score := Score(village, candidate, mode, sim);
    var limit := if mode == "city" then CITY_THRESHOLD else threshold;
    if score >= limit then
      Round3KeepsGridThreshold(score, 600);
      Round3KeepsGridThreshold(score, (threshold * 1000.0).Floor);
      Some(Round3(score))
    else
      None
  }

  /** The `threshold` argument plays no part in city mode. */
  lemma CityModeIgnoresThreshold(village: Village, candidate: Candidate, t1: real, t2: real, sim: Similarity)
    ensures MatchPostalCandidate(village, candidate, "city", t1, sim) == MatchPostalCandidate(village, candidate, "city", t2, sim)
  {
  }

  /** The weights of each mode sum to 1, so with similarities in [0, 1] the score, and an
      accepted (rounded) confidence, lie in [0, 1]. */
  lemma ScoreInUnitRange(village: Village, candidate: Candidate, mode: string, threshold: real, sim: Similarity)
    requires UnitSimilarity(sim)
    ensures 0.0 <= Score(village, candidate, mode, sim) <= 1.0
    ensures var r := MatchPostalCandidate(village, candidate, mode, threshold, sim);
            r.Some? ==> 0.0 <= r.value <= 1.0
  {
    assert 0.0 <= Score(village, candidate, mode, sim) <= 1.0;
    Round3Unit(Score(village, candidate, mode, sim));
  }

  /** Acceptance is monotone: when no similarity term drops, an accepted candidate stays
      accepted and its confidence does not drop. */
  lemma {:induction false} MatchMonotone(village: Village, candidate: Candidate, mode: string, threshold: real,
                                         sim: Similarity, sim': Similarity)
    requires sim(village.village, Get(candidate, "village")) <= sim'(village.village, Get(candidate, "village"))
    requires sim(village.district, Get(candidate, "district")) <= sim'(village.district, Get(candidate, "district"))
    requires sim(village.city, Get(candidate, "city")) <= sim'(village.city, Get(candidate, "city"))
    requires sim(village.province, Get(candidate, "province")) <= sim'(village.province, Get(candidate, "province"))
    ensures var r, r' := MatchPostalCandidate(village, candidate, mode, threshold, sim),
                         MatchPostalCandidate(village, candidate, mode, threshold, sim');
            r.Some? ==> r'.Some? && r.value <= r'.value
  {
    var s, s' := Score(village, candidate, mode, sim), Score(village, candidate, mode, sim');
    assert s <= s';
    Round3Monotone(s, s');
  }

  /** A missing candidate field is compared exactly as an empty one. */
  lemma MissingFieldReadsEmpty(village: Village, candidate: Candidate, field: string, mode: string,
                               threshold: real, sim: Similarity)
    requires field !in candidate
    ensures MatchPostalCandidate(village, candidate, mode, threshold, sim)
         == MatchPostalCandidate(village, candidate[field := ""], mode, threshold, sim)
  {
    var c' := candidate[field := ""];
    assert forall k :: Get(candidate, k) == Get(c', k);
  }

  /** City mode at its boundary: a perfect district and a failed city give 0.6, accepted. */
  lemma CityBoundaryAccepted(village: Village, candidate: Candidate, threshold: real, sim: Similarity)
    requires sim(village.district, Get(candidate, "district")) == 1.0
    requires sim(village.city, Get(candidate, "city")) == 0.0
    ensures MatchPostalCandidate(village, candidate, "city", threshold, sim) == Some(0.6)
  {
    Round3OnGrid(600);
  }

  /** City mode just below its boundary: district 0.9 and city 0 give 0.54, rejected. */
  lemma CityBelowBoundaryRejected(village: Village, candidate: Candidate, threshold: real, sim: Similarity)
    requires sim(village.district, Get(candidate, "district")) == 0.9
    requires sim(village.city, Get(candidate, "city")) == 0.0
    ensures Score(village, candidate, "city", sim) == 0.54
    ensures MatchPostalCandidate(village, candidate, "city", threshold, sim) == None
  {
  }

  /** A stub similarity for the worked examples below: 1 for equal strings, 0 otherwise. */
  function ExactSimilarity(a: string, b: string): (r: real)
    ensures r == 1.0 <==> a == b
    ensures r == 0.0 <==> a != b
  {
    if a == b then 1.0 else 0.0
  }

  /** Exact stub, village mode, all three fields equal: score 1.0, accepted. */
  lemma ExactStubAllEqual(village: Village, candidate: Candidate)
    requires Get(candidate, "village") == village.village
    requires Get(candidate, "district") == village.district
    requires Get(candidate, "province") == village.province
    ensures MatchPostalCandidate(village, candidate, "village", DEFAULT_THRESHOLD, ExactSimilarity) == Some(1.0)
  {
    Round3OnGrid(1000);
  }

  /** Exact stub, village mode, only the province differs: score 0.8, accepted at the boundary. */
  lemma ExactStubProvinceMismatch(village: Village, candidate: Candidate)
    requires Get(candidate, "village") == village.village
    requires Get(candidate, "district") == village.district
    requires Get(candidate, "province") != village.province
    ensures MatchPostalCandidate(village, candidate, "village", DEFAULT_THRESHOLD, ExactSimilarity) == Some(0.8)
  {
    Round3OnGrid(800);
  }

  /** Exact stub, village mode, any two fields differ: rejected. */
  lemma ExactStubTwoMismatchesRejected(village: Village, candidate: Candidate)
    requires (if Get(candidate, "village") != village.village then 1 else 0)
           + (if Get(candidate, "district") != village.district then 1 else 0)
           + (if Get(candidate, "province") != village.province then 1 else 0) >= 2
    ensures MatchPostalCandidate(village, candidate, "village", DEFAULT_THRESHOLD, ExactSimilarity) == None
  {
  }
}
