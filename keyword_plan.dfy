/** cli.py, `process_village` lines 41-76: the ordered keyword list a village is searched by. */
module KeywordPlan {
  import opened Seqs
  import opened Text
  import opened Keywords
  import opened Model

  /** The raw keywords, in the order they are tried: the village name, the district name, the
      village prefixes, the district prefixes, the single-word fallback and, when there is
      one, the city keyword. `prefixes` stands for `extract_prefix_keywords`, which is not
      part of this model. */
  function RawKeywords(v: Village, prefixes: string -> seq<string>, cityKeyword: string): (r: seq<string>)
    ensures var pv, pd := |prefixes(v.village)|, |prefixes(v.district)|;
            && |r| == 3 + pv + pd + (if cityKeyword != "" then 1 else 0)
            && r[..2] == [v.village, v.district]
            && r[2..2 + pv] == prefixes(v.village)
            && r[2 + pv..2 + pv + pd] == prefixes(v.district)
            && r[2 + pv + pd..3 + pv + pd] == [ExtractSingleWord(v.village)]
            && r[3 + pv + pd..] == (if cityKeyword != "" then [cityKeyword] else [])
  {
    var names, pv, pd := [v.village, v.district], prefixes(v.village), prefixes(v.district);
    var single := [ExtractSingleWord(v.village)];
    var city := if cityKeyword != "" then [cityKeyword] else [];
    Concat5(names, pv, pd, single, city);
    names + pv + pd + single + city
  }

  /** Each part of a five-way concatenation sits at its own offset. */
  lemma Concat5<T>(a: seq<T>, b: seq<T>, c: seq<T>, d: seq<T>, e: seq<T>)
    ensures var r, i, j, k, l := a + b + c + d + e, |a|, |a| + |b|, |a| + |b| + |c|, |a| + |b| + |c| + |d|;
            && |r| == l + |e|
            && r[..i] == a && r[i..j] == b && r[j..k] == c && r[k..l] == d && r[l..] == e
  {
    var r := a + b + c + d + e;
    assert r == (a + b + c + d) + e;
    assert a + b + c + d == (a + b + c) + d;
    assert a + b + c == (a + b) + c;
  }

  /** A raw keyword survives the length filter: non-empty, and at least three characters
      once stripped. */
  predicate Kept(k: string)
  {
    k != "" && |Strip(k)| >= 3
  }

  /** The comparison forms of a keyword list: the `seen` set of the loop. */
  function Forms(ks: seq<string>, form: string -> string): set<string>
  {
    set k | k in ks :: form(k)
  }

  /** The dedup loop for any filter `keep`, normalisation `norm` and comparison form `form`:
      every kept raw keyword, normalised, unless one of the same form is already listed. */
  function DedupBy(raw: seq<string>, keep: string -> bool, norm: string -> string, form: string -> string): (ks: seq<string>)
    ensures |ks| <= |raw|
    decreases |raw|
  {
    if raw == [] then []
    else
      var prev := DedupBy(raw[..|raw| - 1], keep, norm, form);
      var k := raw[|raw| - 1];
      if !keep(k) || form(norm(k)) in Forms(prev, form) then prev
      else prev + [norm(k)]
  }

  /** The normalised keyword list: kept raw keywords, stripped, first of each lowercase form. */
  function Dedup(raw: seq<string>): seq<string>
  {
    DedupBy(raw, Kept, Strip, Lower)
  }

  lemma FormsAppend(ks: seq<string>, k: string, form: string -> string)
    ensures Forms(ks + [k], form) == Forms(ks, form) + {form(k)}
  {
    assert forall x :: x in ks + [k] <==> x in ks || x == k;
  }

  /** The normalise-and-dedup loop over the raw keywords. */
  method NormalizeKeywords(raw: seq<string>) returns (keywords: seq<string>)
    ensures keywords == Dedup(raw)
  {
    var seen: set<string> := {};
    keywords := [];
    for i := 0 to |raw|
      invariant keywords == Dedup(raw[..i])
      invariant seen == Forms(keywords, Lower)
    {
      assert raw[..i + 1][..i] == raw[..i];
      var k := raw[i];
      if k == "" {
        continue;
      }
      k := Strip(k);
      if |k| < 3 {
        continue;
      }
      var key := Lower(k);
      if key in seen {
        continue;
      }
      FormsAppend(keywords, k, Lower);
      seen := seen + {key};
      keywords := keywords + [k];
    }
    assert raw[..|raw|] == raw;
  }

  /** No two entries have the same form. */
  lemma {:induction false} NoDuplicateForms(raw: seq<string>, keep: string -> bool, norm: string -> string, form: string -> string)
    ensures forall s, t :: 0 <= s < t < |DedupBy(raw, keep, norm, form)| ==>
              form(DedupBy(raw, keep, norm, form)[s]) != form(DedupBy(raw, keep, norm, form)[t])
    decreases |raw|
  {
    if raw != [] {
      var init := raw[..|raw| - 1];
      var prev := DedupBy(init, keep, norm, form);
      var ks := DedupBy(raw, keep, norm, form);
      NoDuplicateForms(init, keep, norm, form);
      if ks != prev {
        var k := norm(raw[|raw| - 1]);
        assert ks == prev + [k] && form(k) !in Forms(prev, form);
        forall s, t | 0 <= s < t < |ks| ensures form(ks[s]) != form(ks[t]) {
          if t == |prev| {
            assert ks[t] == k;
            assert ks[s] == prev[s] && prev[s] in prev;
            assert form(prev[s]) in Forms(prev, form);
          } else {
            assert ks[s] == prev[s] && ks[t] == prev[t];
          }
        }
      }
    }
  }

  /** One step of the loop: the forms only grow, and a kept keyword's form is among them
      afterwards. */
  lemma DedupStep(raw: seq<string>, keep: string -> bool, norm: string -> string, form: string -> string)
    requires raw != []
    ensures var prev := DedupBy(raw[..|raw| - 1], keep, norm, form);
            var ks := DedupBy(raw, keep, norm, form);
            && Forms(prev, form) <= Forms(ks, form)
            && (keep(raw[|raw| - 1]) ==> form(norm(raw[|raw| - 1])) in Forms(ks, form))
  {
    var prev := DedupBy(raw[..|raw| - 1], keep, norm, form);
    var k := raw[|raw| - 1];
    if DedupBy(raw, keep, norm, form) != prev {
      FormsAppend(prev, norm(k), form);
    }
  }

  /** Every kept raw keyword is represented by an entry of the same form. */
  lemma {:induction false} KeptIsCovered(raw: seq<string>, keep: string -> bool, norm: string -> string, form: string -> string, i: nat)
    requires i < |raw| && keep(raw[i])
    ensures form(norm(raw[i])) in Forms(DedupBy(raw, keep, norm, form), form)
    decreases |raw|
  {
    var n := |raw| - 1;
    DedupStep(raw, keep, norm, form);
    if i < n {
      var init := raw[..n];
      assert raw[i] == init[i];
      KeptIsCovered(init, keep, norm, form, i);
    }
  }

  /** Entry `t` comes from raw position `idx[t]`, which is kept and is the first kept position
      of its form. */
  ghost predicate FirstOfItsForm(raw: seq<string>, keep: string -> bool, norm: string -> string, form: string -> string,
                                 ks: seq<string>, idx: seq<nat>)
  {
    |idx| == |ks| && Increasing(idx)
    && (forall t :: 0 <= t < |idx| ==> idx[t] < |raw| && keep(raw[idx[t]]) && ks[t] == norm(raw[idx[t]]))
    && (forall t, j :: 0 <= t < |idx| && 0 <= j < idx[t] && keep(raw[j]) ==> form(norm(raw[j])) != form(ks[t]))
  }

  /** The list is the order-preserving subsequence of the raw list that keeps the first
      occurrence of each form (with `KeptIsCovered`, every form occurs). */
  lemma {:induction false} DedupKeepsFirstOccurrence(raw: seq<string>, keep: string -> bool, norm: string -> string,
                                                     form: string -> string) returns (idx: seq<nat>)
    ensures FirstOfItsForm(raw, keep, norm, form, DedupBy(raw, keep, norm, form), idx)
    decreases |raw|
  {
    if raw == [] {
      return [];
    }
    var n := |raw| - 1;
    var init := raw[..n];
    var prevIdx := DedupKeepsFirstOccurrence(init, keep, norm, form);
    var prev := DedupBy(init, keep, norm, form);
    var ks := DedupBy(raw, keep, norm, form);
    forall j | 0 <= j < n ensures raw[j] == init[j] {
    }
    if ks == prev {
      idx := prevIdx;
    } else {
      idx := prevIdx + [n];
      assert ks == prev + [norm(raw[n])];
      forall t, j | 0 <= t < |idx| && 0 <= j < idx[t] && keep(raw[j])
        ensures form(norm(raw[j])) != form(ks[t])
      {
        if t == |prevIdx| {
          KeptIsCovered(init, keep, norm, form, j);
        } else {
          assert idx[t] == prevIdx[t] && ks[t] == prev[t];
        }
      }
      forall t | 0 <= t < |idx| ensures idx[t] < |raw| && keep(raw[idx[t]]) && ks[t] == norm(raw[idx[t]]) {
        if t < |prevIdx| {
          assert idx[t] == prevIdx[t] && ks[t] == prev[t];
        }
      }
    }
  }

  /** Every keyword is already trimmed and at least three characters long. */
  lemma KeywordsTrimmed(raw: seq<string>)
    ensures forall t :: 0 <= t < |Dedup(raw)| ==> Trimmed(Dedup(raw)[t]) && |Dedup(raw)[t]| >= 3
  {
    var idx := DedupKeepsFirstOccurrence(raw, Kept, Strip, Lower);
    var ks := Dedup(raw);
    forall t | 0 <= t < |ks| ensures Trimmed(ks[t]) && |ks[t]| >= 3 {
      assert Kept(raw[idx[t]]) && ks[t] == Strip(raw[idx[t]]);
    }
  }

  /** No two keywords are equal ignoring case. */
  lemma NoCaseDuplicates(raw: seq<string>)
    ensures forall s, t :: 0 <= s < t < |Dedup(raw)| ==> Lower(Dedup(raw)[s]) != Lower(Dedup(raw)[t])
  {
    NoDuplicateForms(raw, Kept, Strip, Lower);
  }

  /** The keyword list is the stripped first occurrence, ignoring case, of every raw keyword
      that passes the length filter, in raw order: `idx[t]` is where keyword `t` comes from. */
  lemma KeywordsAreFirstOccurrences(raw: seq<string>) returns (idx: seq<nat>)
    ensures FirstOfItsForm(raw, Kept, Strip, Lower, Dedup(raw), idx)
    ensures forall i :: 0 <= i < |raw| && Kept(raw[i]) ==> Lower(Strip(raw[i])) in Forms(Dedup(raw), Lower)
  {
    idx := DedupKeepsFirstOccurrence(raw, Kept, Strip, Lower);
    forall i | 0 <= i < |raw| && Kept(raw[i]) ensures Lower(Strip(raw[i])) in Forms(Dedup(raw), Lower) {
      KeptIsCovered(raw, Kept, Strip, Lower, i);
    }
  }
}
