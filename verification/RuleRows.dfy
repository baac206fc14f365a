/** `writeRemedyRules`: the org's whole rule set is replaced row by row inside the caller's
    transaction, and read back in position order. */
module RuleRows {
  import opened RuleChange
  import opened Wrappers

  /** A row of `remedy_risk_rules`, keyed by name, with its place in the operator's order. */
  datatype Row = Row(position: nat, rule: RiskRule)

  /** The row of `remedy_risk_settings`. `writtenBy` is None for the host's shell. */
  datatype Settings = Settings(model: Option<nat>, writtenBy: Option<UserId>, writerLabel: string, at: nat)

  datatype Outcome = Replaced(n: nat) | Refused

  ghost predicate UniqueNames(rules: seq<RiskRule>) {
    forall i, j :: 0 <= i < j < |rules| ==> rules[i].name != rules[j].name
  }

  /** `rows` holds exactly the first `n` rules, each at its own place. */
  ghost predicate Holds(rows: map<string, Row>, rules: seq<RiskRule>, n: nat)
    requires n <= |rules|
  {
    && (forall i :: 0 <= i < n ==> rules[i].name in rows && rows[rules[i].name] == Row(i, rules[i]))
    && forall name :: name in rows ==> exists i :: 0 <= i < n && rules[i].name == name
  }

  class Tables {
    var rows: map<string, Row>
    var settings: Option<Settings>

    /** A second insert of one name violates the primary key, and the transaction is lost. */
    method WriteRemedyRules(
      rules: seq<RiskRule>, model: Option<nat>, writtenBy: Option<UserId>, writerLabel: string, at: nat)
      returns (r: Outcome)
      modifies this
      ensures r.Replaced? <==> UniqueNames(rules)
      ensures r.Replaced? ==>
                && Holds(rows, rules, |rules|) && r.n == |old(rows)|
                && settings == Some(Settings(model, writtenBy, writerLabel, at))
    {
      var replaced := |rows|;
      settings := Some(Settings(model, writtenBy, writerLabel, at));
      rows := map[];
      for i := 0 to |rules|
        invariant Holds(rows, rules, i)
        invariant forall j, k :: 0 <= j < k < i ==> rules[j].name != rules[k].name
        invariant settings == Some(Settings(model, writtenBy, writerLabel, at))
      {
        if rules[i].name in rows {
          var j :| 0 <= j < i && rules[j].name == rules[i].name;
          return Refused;
        }
        rows := rows[rules[i].name := Row(i, rules[i])];
      }
      return Replaced(replaced);
    }
  }

  /** `list` is `SELECT … ORDER BY position`: every row once, positions ascending. */
  ghost predicate IsReadBack(rows: map<string, Row>, list: seq<RiskRule>, positions: seq<nat>) {
    && |positions| == |list|
    && (forall i, j :: 0 <= i < j < |list| ==> positions[i] < positions[j])
    && (forall i :: 0 <= i < |list| ==> list[i].name in rows && rows[list[i].name] == Row(positions[i], list[i]))
    && forall name :: name in rows ==> exists i :: 0 <= i < |list| && list[i].name == name
  }

  /** What is read back is what was written, in the order it was written. */
  lemma WrittenRulesReadBack(rows: map<string, Row>, rules: seq<RiskRule>, list: seq<RiskRule>, positions: seq<nat>)
    requires Holds(rows, rules, |rules|) && IsReadBack(rows, list, positions)
    ensures list == rules
  {
    forall i | 0 <= i < |list| ensures positions[i] < |rules| && list[i] == rules[positions[i]] {
      var k :| 0 <= k < |rules| && rules[k].name == list[i].name;
    }
    forall k: nat | k < |rules| ensures k in positions {
      var i :| 0 <= i < |list| && list[i].name == rules[k].name;
      assert positions[i] == k;
    }
    DensePositions(positions, |rules|);
  }

  /** Ascending positions that hold every number below `n` and no other are those numbers. */
  lemma {:induction false} DensePositions(positions: seq<nat>, n: nat)
    requires forall i, j :: 0 <= i < j < |positions| ==> positions[i] < positions[j]
    requires forall i :: 0 <= i < |positions| ==> positions[i] < n
    requires forall k: nat :: k < n ==> k in positions
    ensures |positions| == n && forall i :: 0 <= i < n ==> positions[i] == i
    decreases n
  {
    if n == 0 {
      assert positions == [];
    } else {
      assert n - 1 in positions;
      var last := |positions| - 1;
      assert forall j :: 0 <= j < last ==> positions[j] < positions[last];
      var i :| 0 <= i < |positions| && positions[i] == n - 1;
      assert i == last;
      var rest := positions[..last];
      forall k: nat | k < n - 1 ensures k in rest {
        assert k in positions;
        var j :| 0 <= j < |positions| && positions[j] == k;
        assert j != last && rest[j] == k;
      }
      DensePositions(rest, n - 1);
      assert forall j :: 0 <= j < last ==> positions[j] == rest[j];
    }
  }
}
