/** cli.py, `process_village` lines 81-173: the keyword search, then the override tier. */
module Search {
  import opened Wrappers
  import opened Model
  import opened PosIndonesia
  import opened RegionMatcher
  import opened OverrideLoader
  import opened Keywords
  import opened KeywordPlan

  /** What a village search depends on outside this model. `fetch` is `fetch_postal_html`
      followed by the HTML parser's cell extraction, `None` when the fetch raises;
      `similarity` is `fuzzy_core.similarity`; `prefixes`, `normalizeCity` and `overrideScore`
      are `extract_prefix_keywords`, `normalize_city_name` and
      `match_postal_candidate_override`; `now(v)` is the clock reading `now_iso` returns when
      the record of village `v` is built. */
  datatype Env = Env(
    fetch: string -> Option<seq<Cells>>,
    similarity: Similarity,
    prefixes: string -> seq<string>,
    normalizeCity: string -> string,
    overrideScore: (Village, Candidate, string, string) -> Option<real>,
    now: Village -> string)

  const SOURCE: string := "pos-indonesia"
  const OVERRIDE_SOURCE: string := "pos-indonesia-override"

  /** Python's truth value of a score: present and non-zero. */
  predicate Truthy(score: Option<real>)
  {
    score.Some? && score.value != 0.0
  }

  /** The scoring mode of a keyword: city mode exactly for the city keyword. */
  function Mode(keyword: string, cityKeyword: string): string
  {
    if keyword == cityKeyword then "city" else "village"
  }

  /** The position of the first candidate with a truthy score. */
  function FirstMatch(candidates: seq<Candidate>, score: Candidate -> Option<real>): (r: Option<nat>)
    ensures r.Some? ==> r.value < |candidates| && Truthy(score(candidates[r.value]))
                        && forall j :: 0 <= j < r.value ==> !Truthy(score(candidates[j]))
    ensures r.None? ==> forall j :: 0 <= j < |candidates| ==> !Truthy(score(candidates[j]))
    decreases |candidates|
  {
    if candidates == [] then None
    else if Truthy(score(candidates[0])) then Some(0)
    else
      match FirstMatch(candidates[1..], score)
      case None => None
      case Some(j) => Some(j + 1)
  }

  /** The primary-phase scorer: `match_postal_candidate` with its default threshold. */
  function PrimaryScorer(v: Village, mode: string, sim: Similarity): Candidate -> Option<real>
  {
    c => MatchPostalCandidate(v, c, mode, DEFAULT_THRESHOLD, sim)
  }

  /** The override-phase scorer, with the rule's match mode and alias. */
  function OverrideScorer(v: Village, rule: OverrideRule, env: Env): Candidate -> Option<real>
  {
    c => env.overrideScore(v, c, rule.matchMode, rule.postalAlias)
  }

  /** The record built for an accepted candidate. */
  function Accepted(v: Village, c: Candidate, source: string, score: real, now: string): Record
  {
    Record(v.villageCode, Get(c, "postal_code"), source, score, now, c)
  }

  /** What one keyword yields: nothing when its fetch fails or no candidate is accepted,
      otherwise the record of the first accepted candidate. */
  function TryKeyword(v: Village, keyword: string, cityKeyword: string, env: Env): Option<Record>
  {
    match env.fetch(keyword)
    case None => None
    case Some(rows) =>
      var candidates := Candidates(rows);
      var score := PrimaryScorer(v, Mode(keyword, cityKeyword), env.similarity);
      match FirstMatch(candidates, score)
      case None => None
      case Some(j) => Some(Accepted(v, candidates[j], SOURCE, score(candidates[j]).value, env.now(v)))
  }

  /** The result of a search together with the keywords fetched, in order. */
  datatype Outcome = Outcome(record: Option<Record>, requests: seq<string>)

  /** An outcome preceded by more requests. */
  function After(requests: seq<string>, o: Outcome): Outcome
  {
    Outcome(o.record, requests + o.requests)
  }

  lemma AfterAfter(first: seq<string>, second: seq<string>, o: Outcome)
    ensures After(first, After(second, o)) == After(first + second, o)
  {
    assert first + (second + o.requests) == (first + second) + o.requests;
  }

  /** Keywords are tried in order, each one fetched, until one yields a record. */
  function FirstHit(keywords: seq<string>, try: string -> Option<Record>): Outcome
    decreases |keywords|
  {
    if keywords == [] then Outcome(None, [])
    else
      match try(keywords[0])
      case Some(record) => Outcome(Some(record), [keywords[0]])
      case None => After([keywords[0]], FirstHit(keywords[1..], try))
  }

  /** The keyword trier of one village. */
  function Trier(v: Village, cityKeyword: string, env: Env): string -> Option<Record>
  {
    k => TryKeyword(v, k, cityKeyword, env)
  }

  /** The override rule for a village: the village-level rule, else the district-level one. */
  function RuleFor(v: Village, rules: Rules): (r: Option<OverrideRule>)
    ensures r.None? <==> ("village", v.villageCode) !in rules && ("district", v.districtCode) !in rules
    ensures ("village", v.villageCode) in rules ==> r == Some(rules[("village", v.villageCode)])
    ensures ("village", v.villageCode) !in rules && ("district", v.districtCode) in rules
            ==> r == Some(rules[("district", v.districtCode)])
  {
    if ("village", v.villageCode) in rules then Some(rules[("village", v.villageCode)])
    else if ("district", v.districtCode) in rules then Some(rules[("district", v.districtCode)])
    else None
  }

  /** The override phase for one rule: a single fetch of the rule's alias. */
  function OverrideSearch(v: Village, rule: OverrideRule, env: Env): Outcome
  {
    var alias := rule.postalAlias;
    match env.fetch(alias)
    case None => Outcome(None, [alias])
    case Some(rows) =>
      var candidates := Candidates(rows);
      var score := OverrideScorer(v, rule, env);
      match FirstMatch(candidates, score)
      case None => Outcome(None, [alias])
      case Some(j) => Outcome(Some(Accepted(v, candidates[j], OVERRIDE_SOURCE, score(candidates[j]).value, env.now(v))), [alias])
  }

  /** The city keyword and the keyword list of a village. */
  function CityKeyword(v: Village, env: Env): string
  {
    env.normalizeCity(v.city)
  }

  function KeywordList(v: Village, env: Env): seq<string>
  {
    Dedup(RawKeywords(v, env.prefixes, CityKeyword(v, env)))
  }

  /** The primary phase of a village. */
  function Primary(v: Village, env: Env): Outcome
  {
    FirstHit(KeywordList(v, env), Trier(v, CityKeyword(v, env), env))
  }

  /** The override tier after a primary outcome: it runs only when that found nothing and
      overrides are enabled, and only when a rule applies. */
  function Tiered(v: Village, primary: Outcome, rules: Rules, enableOverrides: bool, env: Env): Outcome
  {
    if primary.record.Some? || !enableOverrides then primary
    else
      match RuleFor(v, rules)
      case None => primary
      case Some(rule) => After(primary.requests, OverrideSearch(v, rule, env))
  }

  /** The whole of `process_village`: the primary phase, then the override tier. */
  function Resolve(v: Village, rules: Rules, enableOverrides: bool, env: Env): Outcome
  {
    Tiered(v, Primary(v, env), rules, enableOverrides, env)
  }

  /** The candidate loop of either phase: the first candidate whose score is truthy. */
  method FirstAccepted(candidates: seq<Candidate>, score: Candidate -> Option<real>) returns (r: Option<nat>)
    ensures r == FirstMatch(candidates, score)
  {
    for j := 0 to |candidates|
      invariant forall i :: 0 <= i < j ==> !Truthy(score(candidates[i]))
    {
      var s := score(candidates[j]);
      if s.Some? && s.value != 0.0 {
        return Some(j);
      }
    }
    return None;
  }

  /** One keyword of the loop in `process_village` (lines 82-115). */
  method SearchKeyword(v: Village, keyword: string, cityKeyword: string, env: Env) returns (record: Option<Record>)
    ensures record == TryKeyword(v, keyword, cityKeyword, env)
  {
    record := None;
    var isCityLevel := keyword == cityKeyword;
    var fetched := env.fetch(keyword);
    if fetched.None? {
      return;
    }
    var candidates := ParsePostalResults(fetched.value);
    if |candidates| == 0 {
      return;
    }
    var score := PrimaryScorer(v, if isCityLevel then "city" else "village", env.similarity);
    var hit := FirstAccepted(candidates, score);
    if hit.Some? {
      var c := candidates[hit.value];
      record := Some(Record(v.villageCode, c["postal_code"], SOURCE, score(c).value, env.now(v), c));
    }
  }

  /** The keyword loop of `process_village` (lines 81-115): keywords in order, stopping at the
      first record. */
  method SearchPrimary(v: Village, keywords: seq<string>, cityKeyword: string, env: Env)
    returns (record: Option<Record>, requests: seq<string>)
    ensures Outcome(record, requests) == FirstHit(keywords, Trier(v, cityKeyword, env))
  {
    record := None;
    requests := [];
    for i := 0 to |keywords|
      invariant record == None
      invariant FirstHit(keywords, Trier(v, cityKeyword, env)) == After(requests, FirstHit(keywords[i..], Trier(v, cityKeyword, env)))
    {
      var keyword := keywords[i];
      var rest := keywords[i..];
      assert rest != [] && rest[0] == keyword && rest[1..] == keywords[i + 1..];
      record := SearchKeyword(v, keyword, cityKeyword, env);
      if record.Some? {
        assert FirstHit(rest, Trier(v, cityKeyword, env)) == Outcome(record, [keyword]);
        requests := requests + [keyword];
        return;
      }
      AfterAfter(requests, [keyword], FirstHit(keywords[i + 1..], Trier(v, cityKeyword, env)));
      requests := requests + [keyword];
    }
    assert keywords[|keywords|..] == [];
    assert requests + [] == requests;
  }

  /** The override fetch and candidate loop of `process_village` (lines 138-168). */
  method SearchOverride(v: Village, rule: OverrideRule, env: Env) returns (record: Option<Record>, requests: seq<string>)
    ensures Outcome(record, requests) == OverrideSearch(v, rule, env)
  {
    record := None;
    var alias := rule.postalAlias;
    requests := [alias];
    var fetched := env.fetch(alias);
    if fetched.None? {
      return;
    }
    var candidates := ParsePostalResults(fetched.value);
    var score := OverrideScorer(v, rule, env);
    var hit := FirstAccepted(candidates, score);
    if hit.Some? {
      var c := candidates[hit.value];
      record := Some(Record(v.villageCode, c["postal_code"], OVERRIDE_SOURCE, score(c).value, env.now(v), c));
    }
  }

  /** The keyword list of `process_village` (lines 41-76) and its city keyword. */
  method BuildKeywords(v: Village, env: Env) returns (keywords: seq<string>, cityKeyword: string)
    ensures keywords == KeywordList(v, env) && cityKeyword == CityKeyword(v, env)
  {
    var rawKeywords := [v.village, v.district];
    rawKeywords := rawKeywords + env.prefixes(v.village);
    rawKeywords := rawKeywords + env.prefixes(v.district);
    rawKeywords := rawKeywords + [ExtractSingleWord(v.village)];
    cityKeyword := env.normalizeCity(v.city);
    if cityKeyword != "" {
      rawKeywords := rawKeywords + [cityKeyword];
    }
    assert rawKeywords == RawKeywords(v, env.prefixes, cityKeyword);
    keywords := NormalizeKeywords(rawKeywords);
  }

  /** The override tier of `process_village` (lines 117-168), after the primary phase. */
  method OverrideTier(v: Village, primary: Outcome, rules: Rules, enableOverrides: bool, env: Env)
    returns (record: Option<Record>, requests: seq<string>)
    ensures Outcome(record, requests) == Tiered(v, primary, rules, enableOverrides, env)
  {
    record, requests := primary.record, primary.requests;
    if record.Some? || !enableOverrides {
      return;
    }
    var rule: Option<OverrideRule> := None;
    if ("village", v.villageCode) in rules {
      rule := Some(rules[("village", v.villageCode)]);
    }
    if rule.None? && ("district", v.districtCode) in rules {
      rule := Some(rules[("district", v.districtCode)]);
    }
    assert rule == RuleFor(v, rules);
    if rule.Some? {
      var overrideRequests;
      record, overrideRequests := SearchOverride(v, rule.value, env);
      requests := requests + overrideRequests;
    }
  }

  /** `process_village`: the record found, if any, and the keywords fetched, in order. */
  method ProcessVillage(v: Village, rules: Rules, enableOverrides: bool, env: Env)
    returns (record: Option<Record>, requests: seq<string>)
    ensures Outcome(record, requests) == Resolve(v, rules, enableOverrides, env)
  {
    var keywords, cityKeyword := BuildKeywords(v, env);
    record, requests := SearchPrimary(v, keywords, cityKeyword, env);
    record, requests := OverrideTier(v, Outcome(record, requests), rules, enableOverrides, env);
  }

  /** With the default threshold, a score is truthy exactly when the candidate is accepted:
      an accepted score is at least 0.6, so never 0. */
  lemma MatchTruthyIffAccepted(v: Village, c: Candidate, mode: string, sim: Similarity)
    ensures Truthy(MatchPostalCandidate(v, c, mode, DEFAULT_THRESHOLD, sim))
            <==> MatchPostalCandidate(v, c, mode, DEFAULT_THRESHOLD, sim).Some?
  {
    assert (DEFAULT_THRESHOLD * 1000.0).Floor == 800;
  }

  /** The keywords are tried in order and the first one that yields a record ends the search:
      it is the last keyword fetched, and every earlier one yielded nothing. When none
      yields a record, every keyword was fetched. */
  lemma {:induction false} FirstRecordWins(keywords: seq<string>, try: string -> Option<Record>) returns (i: nat)
    ensures FirstHit(keywords, try).record.Some? ==>
              && i < |keywords|
              && FirstHit(keywords, try).record == try(keywords[i])
              && FirstHit(keywords, try).requests == keywords[..i + 1]
              && forall j :: 0 <= j < i ==> try(keywords[j]).None?
    ensures FirstHit(keywords, try).record.None? ==>
              && FirstHit(keywords, try).requests == keywords
              && forall j :: 0 <= j < |keywords| ==> try(keywords[j]).None?
    decreases |keywords|
  {
    if keywords == [] || try(keywords[0]).Some? {
      return 0;
    }
    var rest := keywords[1..];
    var k := FirstRecordWins(rest, try);
    i := k + 1;
    forall j | 0 < j < |keywords| ensures keywords[j] == rest[j - 1] {
    }
    if FirstHit(keywords, try).record.Some? {
      assert keywords[..i + 1] == [keywords[0]] + rest[..k + 1];
    } else {
      assert keywords == [keywords[0]] + rest;
    }
  }

  /** A keyword that yields nothing (a failed fetch, say) is skipped, and nothing else
      changes: the search finds the same record as the search without that keyword. */
  lemma {:induction false} MissSkipsOnlyThatKeyword(keywords: seq<string>, i: nat, try: string -> Option<Record>)
    requires i < |keywords| && try(keywords[i]).None?
    ensures FirstHit(keywords, try).record == FirstHit(keywords[..i] + keywords[i + 1..], try).record
    decreases i
  {
    var without := keywords[..i] + keywords[i + 1..];
    if i == 0 {
      assert without == keywords[1..];
    } else {
      var rest := keywords[1..];
      assert without != [] && without[0] == keywords[0];
      assert without[1..] == rest[..i - 1] + rest[i..];
      MissSkipsOnlyThatKeyword(rest, i - 1, try);
    }
  }

  /** A primary-phase fetch error skips only that keyword. */
  lemma FetchErrorSkipsOnlyThatKeyword(v: Village, keywords: seq<string>, i: nat, cityKeyword: string, env: Env)
    requires i < |keywords| && env.fetch(keywords[i]).None?
    ensures FirstHit(keywords, Trier(v, cityKeyword, env)).record
            == FirstHit(keywords[..i] + keywords[i + 1..], Trier(v, cityKeyword, env)).record
  {
    MissSkipsOnlyThatKeyword(keywords, i, Trier(v, cityKeyword, env));
  }

  /** The record a keyword yields: the village's code, the candidate's postal code, source
      "pos-indonesia", and the rounded score of the mode the keyword selects (city mode
      exactly for the city keyword), which is at least 0.6, and at least 0.8 in village
      mode. */
  lemma PrimaryRecord(v: Village, keyword: string, cityKeyword: string, env: Env)
    requires TryKeyword(v, keyword, cityKeyword, env).Some?
    ensures var r := TryKeyword(v, keyword, cityKeyword, env).value;
            && r.villageCode == v.villageCode && r.source == SOURCE && r.retrievedAt == env.now(v)
            && WellFormed(r.raw) && r.postalCode == r.raw["postal_code"]
            && r.confidence == Round3(Score(v, r.raw, Mode(keyword, cityKeyword), env.similarity))
            && r.confidence >= CITY_THRESHOLD
            && (keyword != cityKeyword ==> r.confidence >= DEFAULT_THRESHOLD)
  {
    var rows := env.fetch(keyword).value;
    var candidates := Candidates(rows);
    var score := PrimaryScorer(v, Mode(keyword, cityKeyword), env.similarity);
    var j := FirstMatch(candidates, score).value;
    CandidatesWellFormed(rows);
    assert WellFormed(candidates[j]);
    assert (DEFAULT_THRESHOLD * 1000.0).Floor == 800;
  }

  /** The override tier runs only when overrides are enabled and the primary phase found
      nothing; the village-level rule then takes precedence over the district-level one. */
  lemma OverrideTiers(v: Village, primary: Outcome, rules: Rules, enableOverrides: bool, env: Env)
    ensures !enableOverrides || primary.record.Some? ==> Tiered(v, primary, rules, enableOverrides, env) == primary
    ensures enableOverrides && primary.record.None? && ("village", v.villageCode) in rules ==>
              Tiered(v, primary, rules, enableOverrides, env)
              == After(primary.requests, OverrideSearch(v, rules[("village", v.villageCode)], env))
    ensures enableOverrides && primary.record.None? && ("village", v.villageCode) !in rules
            && ("district", v.districtCode) in rules ==>
              Tiered(v, primary, rules, enableOverrides, env)
              == After(primary.requests, OverrideSearch(v, rules[("district", v.districtCode)], env))
    ensures ("village", v.villageCode) !in rules && ("district", v.districtCode) !in rules ==>
              Tiered(v, primary, rules, enableOverrides, env) == primary
  {
  }

  /** A failed override fetch ends the village with no record, after that one extra request. */
  lemma OverrideFetchErrorGivesNothing(v: Village, primary: Outcome, rules: Rules, env: Env, rule: OverrideRule)
    requires primary.record.None? && RuleFor(v, rules) == Some(rule)
    requires env.fetch(rule.postalAlias).None?
    ensures Tiered(v, primary, rules, true, env) == Outcome(None, primary.requests + [rule.postalAlias])
  {
  }

  /** A record of the primary phase comes from the keyword that ended the search. */
  lemma PrimaryOutcomeRecord(v: Village, env: Env)
    requires Primary(v, env).record.Some?
    ensures var r := Primary(v, env).record.value;
            && r.villageCode == v.villageCode && r.retrievedAt == env.now(v) && r.source == SOURCE
            && WellFormed(r.raw) && r.postalCode == r.raw["postal_code"] && r.confidence >= CITY_THRESHOLD
  {
    var keywords := KeywordList(v, env);
    var cityKeyword := CityKeyword(v, env);
    var i := FirstRecordWins(keywords, Trier(v, cityKeyword, env));
    PrimaryRecord(v, keywords[i], cityKeyword, env);
  }

  /** A record of the override phase: the village's code, the clock reading, source
      "pos-indonesia-override", a well-formed candidate and a non-zero score. */
  lemma OverrideRecord(v: Village, rule: OverrideRule, env: Env)
    requires OverrideSearch(v, rule, env).record.Some?
    ensures var r := OverrideSearch(v, rule, env).record.value;
            && r.villageCode == v.villageCode && r.retrievedAt == env.now(v) && r.source == OVERRIDE_SOURCE
            && WellFormed(r.raw) && r.postalCode == r.raw["postal_code"] && r.confidence != 0.0
  {
    CandidatesWellFormed(env.fetch(rule.postalAlias).value);
  }

  /** Every record carries the village's code, the clock reading and a well-formed candidate
      with its postal code; a primary record has a score of at least 0.6, and an override
      record exists only when overrides are enabled, the primary phase found nothing and a
      rule applies. */
  lemma ResolvedRecord(v: Village, rules: Rules, enableOverrides: bool, env: Env)
    requires Resolve(v, rules, enableOverrides, env).record.Some?
    ensures var r := Resolve(v, rules, enableOverrides, env).record.value;
            && r.villageCode == v.villageCode && r.retrievedAt == env.now(v)
            && WellFormed(r.raw) && r.postalCode == r.raw["postal_code"]
            && (r.source == SOURCE || r.source == OVERRIDE_SOURCE)
            && (r.source == SOURCE ==> r.confidence >= CITY_THRESHOLD)
            && (r.source == OVERRIDE_SOURCE ==>
                  enableOverrides && Primary(v, env).record.None? && RuleFor(v, rules).Some? && r.confidence != 0.0)
  {
    if Primary(v, env).record.Some? {
      PrimaryOutcomeRecord(v, env);
    } else {
      OverrideRecord(v, RuleFor(v, rules).value, env);
    }
  }
}
