/** ingest/override_loader.py: the alias rules, keyed by (level, code). */
module OverrideLoader {
  import opened Wrappers
  import opened Text

  /** One row of the override table, column name to cell text. */
  type Row = map<string, string>

  /** `OverrideRule`: level is "village" or "district"; match_mode names a scoring mode. */
  datatype OverrideRule = OverrideRule(
    level: string,
    code: string,
    canonicalName: string,
    postalAlias: string,
    matchMode: string)

  type RuleKey = (string, string)

  type Rules = map<RuleKey, OverrideRule>

  /** The `KeyError` a row without one of the five columns raises: which row, which column. */
  datatype LoadError = MissingColumn(row: nat, column: string)

  /** The key a rule is stored under, built from its own fields. */
  function Key(rule: OverrideRule): RuleKey
  {
    (rule.level, rule.code)
  }

  /** Every field trimmed. */
  ghost predicate TrimmedRule(rule: OverrideRule)
  {
    Trimmed(rule.level) && Trimmed(rule.code) && Trimmed(rule.canonicalName)
    && Trimmed(rule.postalAlias) && Trimmed(rule.matchMode)
  }

  /** The five columns a rule is read from are all there. */
  predicate HasColumns(row: Row)
  {
    "level" in row && "code" in row && "canonical_name" in row && "postal_alias" in row && "match_mode" in row
  }

  /** The rule of one row, or the first of its five columns (in the order they are read)
      that is missing. */
  function RuleOf(row: Row): (r: Result<OverrideRule, string>)
    ensures r.Success? <==> HasColumns(row)
    ensures r.Failure? ==> r.error !in row
    ensures r.Success? ==> TrimmedRule(r.value)
    ensures r.Success? ==> r.value == OverrideRule(Strip(row["level"]), Strip(row["code"]), Strip(row["canonical_name"]),
                                                   Strip(row["postal_alias"]), Strip(row["match_mode"]))
  {
    if "level" !in row then Failure("level")
    else if "code" !in row then Failure("code")
    else if "canonical_name" !in row then Failure("canonical_name")
    else if "postal_alias" !in row then Failure("postal_alias")
    else if "match_mode" !in row then Failure("match_mode")
    else
      Success(OverrideRule(Strip(row["level"]), Strip(row["code"]), Strip(row["canonical_name"]),
                           Strip(row["postal_alias"]), Strip(row["match_mode"])))
  }

  /** The rules of a whole table: each row's rule stored under its key, a later row replacing
      an earlier one with the same key; the first incomplete row aborts the load. */
  function RulesFrom(rows: seq<Row>): Result<Rules, LoadError>
    decreases |rows|
  {
    if rows == [] then Success(map[])
    else
      match RulesFrom(rows[..|rows| - 1])
      case Failure(e) => Failure(e)
      case Success(m) =>
        match RuleOf(rows[|rows| - 1])
        case Failure(column) => Failure(MissingColumn(|rows| - 1, column))
        case Success(rule) => Success(m[Key(rule) := rule])
  }

  /** Once a prefix of the table fails to load, the whole table fails with the same error. */
  lemma {:induction false} FailureSticks(rows: seq<Row>, n: nat)
    requires n <= |rows|
    requires RulesFrom(rows[..n]).Failure?
    ensures RulesFrom(rows) == RulesFrom(rows[..n])
    decreases |rows|
  {
    if n < |rows| {
      var init := rows[..|rows| - 1];
      assert init[..n] == rows[..n];
      FailureSticks(init, n);
    } else {
      assert rows[..n] == rows;
    }
  }

  /** `if not path`: no path, or an empty one. */
  predicate PathGiven(path: Option<string>)
  {
    path.Some? && path.value != ""
  }

  /** `load_override_rules`, from the parsed rows onwards. */
  method LoadOverrideRules(path: Option<string>, rows: seq<Row>) returns (r: Result<Rules, LoadError>)
    ensures !PathGiven(path) ==> r == Success(map[])
    ensures PathGiven(path) ==> r == RulesFrom(rows)
  {
    if !PathGiven(path) {
      return Success(map[]);
    }
    var rules: Rules := map[];
    for i := 0 to |rows|
      invariant RulesFrom(rows[..i]) == Success(rules)
    {
      assert rows[..i + 1][..i] == rows[..i];
      var parsed := RuleOf(rows[i]);
      if parsed.Failure? {
        FailureSticks(rows, i + 1);
        return Failure(MissingColumn(i, parsed.error));
      }
      var rule := parsed.value;
      rules := rules[(rule.level, rule.code) := rule];
    }
    assert rows[..|rows|] == rows;
    return Success(rules);
  }

  /** Every row carries all five columns. */
  ghost predicate AllComplete(rows: seq<Row>)
  {
    forall i :: 0 <= i < |rows| ==> HasColumns(rows[i])
  }

  /** Loading succeeds exactly when every row carries all five columns. */
  lemma {:induction false} LoadSucceedsIffComplete(rows: seq<Row>)
    ensures RulesFrom(rows).Success? <==> AllComplete(rows)
    decreases |rows|
  {
    if rows != [] {
      var n := |rows| - 1;
      var init := rows[..n];
      LoadSucceedsIffComplete(init);
      var last := RuleOf(rows[n]);
      if RulesFrom(init).Failure? {
        assert RulesFrom(rows) == Failure(RulesFrom(init).error);
        var i :| 0 <= i < n && !HasColumns(init[i]);
        assert rows[i] == init[i];
      } else if last.Failure? {
        assert RulesFrom(rows) == Failure(MissingColumn(n, last.error));
      } else {
        assert RulesFrom(rows) == Success(RulesFrom(init).value[Key(last.value) := last.value]);
        forall i | 0 <= i < |rows| ensures HasColumns(rows[i]) {
          if i < n { assert rows[i] == init[i]; }
        }
      }
    }
  }

  /** A failed load names the first row that lacks a column, and a column it lacks. */
  lemma {:induction false} LoadErrorNamesFirstIncompleteRow(rows: seq<Row>)
    requires RulesFrom(rows).Failure?
    ensures var e := RulesFrom(rows).error;
            && e.row < |rows| && e.column !in rows[e.row]
            && !HasColumns(rows[e.row])
            && forall j :: 0 <= j < e.row ==> HasColumns(rows[j])
    decreases |rows|
  {
    var n := |rows| - 1;
    var init := rows[..n];
    if RulesFrom(init).Failure? {
      LoadErrorNamesFirstIncompleteRow(init);
      var e := RulesFrom(init).error;
      assert RulesFrom(rows) == Failure(e);
      assert rows[e.row] == init[e.row];
      forall j | 0 <= j < e.row ensures HasColumns(rows[j]) {
        assert rows[j] == init[j];
      }
    } else {
      LoadSucceedsIffComplete(init);
      var last := RuleOf(rows[n]);
      assert RulesFrom(rows) == Failure(MissingColumn(n, last.error));
      forall j | 0 <= j < n ensures HasColumns(rows[j]) {
        assert rows[j] == init[j];
      }
    }
  }

  /** Rules stored one after another under their keys, a later one replacing an earlier one
      with the same key. */
  function Indexed(rules: seq<OverrideRule>): (m: Rules)
    ensures forall k :: k in m ==> k == Key(m[k])
    decreases |rules|
  {
    if rules == [] then map[]
    else
      var last := rules[|rules| - 1];
      Indexed(rules[..|rules| - 1])[Key(last) := last]
  }

  /** The rules of a complete table, row by row. */
  function RuleList(rows: seq<Row>): (rules: seq<OverrideRule>)
    requires AllComplete(rows)
    ensures |rules| == |rows|
    ensures forall i :: 0 <= i < |rows| ==> RuleOf(rows[i]) == Success(rules[i])
  {
    seq(|rows|, i requires 0 <= i < |rows| => RuleOf(rows[i]).value)
  }

  /** Loading a complete table indexes its rules in row order. */
  lemma {:induction false} CompleteLoadIsIndexed(rows: seq<Row>)
    requires AllComplete(rows)
    ensures RulesFrom(rows) == Success(Indexed(RuleList(rows)))
    decreases |rows|
  {
    if rows != [] {
      var n := |rows| - 1;
      var init := rows[..n];
      forall i | 0 <= i < n ensures HasColumns(init[i]) {
        assert init[i] == rows[i];
      }
      CompleteLoadIsIndexed(init);
      assert RuleList(rows)[..n] == RuleList(init);
    }
  }

  /** Every rule's key is present. */
  lemma {:induction false} RuleKeysPresent(rules: seq<OverrideRule>)
    ensures forall i :: 0 <= i < |rules| ==> Key(rules[i]) in Indexed(rules)
    decreases |rules|
  {
    if rules != [] {
      var n := |rules| - 1;
      var init := rules[..n];
      RuleKeysPresent(init);
      forall i | 0 <= i < n ensures Key(rules[i]) in Indexed(rules) {
        assert rules[i] == init[i];
      }
    }
  }

  /** Every key present is the key of some rule. */
  lemma {:induction false} KeysComeFromRules(rules: seq<OverrideRule>)
    ensures forall k :: k in Indexed(rules) ==> exists i :: 0 <= i < |rules| && Key(rules[i]) == k
    decreases |rules|
  {
    if rules != [] {
      var n := |rules| - 1;
      var init := rules[..n];
      KeysComeFromRules(init);
      assert Indexed(rules) == Indexed(init)[Key(rules[n]) := rules[n]];
      forall k | k in Indexed(rules) ensures exists i :: 0 <= i < |rules| && Key(rules[i]) == k {
        if k != Key(rules[n]) {
          assert k in Indexed(init);
          var i :| 0 <= i < n && Key(init[i]) == k;
          assert rules[i] == init[i];
        } else {
          assert Key(rules[n]) == k;
        }
      }
    }
  }

  /** There are no more entries than rules. */
  lemma {:induction false} NoMoreEntriesThanRules(rules: seq<OverrideRule>)
    ensures |Indexed(rules)| <= |rules|
    decreases |rules|
  {
    if rules != [] {
      NoMoreEntriesThanRules(rules[..|rules| - 1]);
    }
  }

  /** The entry under a rule's key is that rule when no later rule has the same key. */
  lemma {:induction false} LastRuleWins(rules: seq<OverrideRule>, i: nat)
    requires i < |rules|
    requires forall j :: i < j < |rules| ==> Key(rules[j]) != Key(rules[i])
    ensures Key(rules[i]) in Indexed(rules) && Indexed(rules)[Key(rules[i])] == rules[i]
    decreases |rules|
  {
    var n := |rules| - 1;
    if i < n {
      var init := rules[..n];
      assert rules[i] == init[i];
      forall j | i < j < n ensures Key(init[j]) != Key(init[i]) {
        assert rules[j] == init[j];
      }
      LastRuleWins(init, i);
    }
  }

  /** Every stored rule sits under its own (level, code) and has all five fields trimmed. */
  lemma {:induction false} RulesWellKeyed(rows: seq<Row>)
    requires RulesFrom(rows).Success?
    ensures forall k :: k in RulesFrom(rows).value ==> k == Key(RulesFrom(rows).value[k]) && TrimmedRule(RulesFrom(rows).value[k])
    decreases |rows|
  {
    if rows != [] {
      RulesWellKeyed(rows[..|rows| - 1]);
    }
  }
}
