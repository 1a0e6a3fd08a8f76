/** The rule base that classifies expenses (src/agent/contract.ts). The run is modelled for
    every rule base. */
module SupplierRules {
  import opened Options
  import opened PayableMatching
  import opened AgentBooks

  datatype SupplierRule = SupplierRule(token: string, expenseAccount: string, vatTreatment: VatTreatment, category: string, assetLike: bool)

  /** In hundredths: a suggestion below this is not booked automatically. */
  const AUTO_BOOK_CONFIDENCE_THRESHOLD := 65

  /** In øre: from this amount an equipment purchase may be a fixed asset. */
  const FIXED_ASSET_REVIEW_THRESHOLD_ORE := 500_000

  function Matching(rules: seq<SupplierRule>, name: string): seq<SupplierRule> {
    if rules == [] then []
    else (if Contains(name, rules[0].token) then [rules[0]] else []) + Matching(rules[1..], name)
  }

  /** The rule of a supplier, unless none or several match. */
  function Resolve(rules: seq<SupplierRule>, lower: string -> string, supplierName: Option<string>): Option<SupplierRule> {
    if supplierName.None? || supplierName.value == "" then None
    else
      var matches := Matching(rules, lower(supplierName.value));
      if |matches| == 1 then Some(matches[0]) else None
  }

  predicate LooksLikeFixedAsset(rule: SupplierRule, grossOre: int) {
    rule.assetLike && (grossOre >= FIXED_ASSET_REVIEW_THRESHOLD_ORE || -grossOre >= FIXED_ASSET_REVIEW_THRESHOLD_ORE)
  }

  ghost predicate Matches(rules: seq<SupplierRule>, name: string, i: int) {
    0 <= i < |rules| && Contains(name, rules[i].token)
  }

  lemma {:induction false} NoneMatch(rules: seq<SupplierRule>, name: string)
    ensures Matching(rules, name) == [] <==> forall i :: !Matches(rules, name, i)
  {
    if rules != [] {
      NoneMatch(rules[1..], name);
      assert forall i :: Matches(rules, name, i) <==> (i == 0 && Contains(name, rules[0].token)) || Matches(rules[1..], name, i - 1);
      assert (forall i :: !Matches(rules, name, i)) <==> !Contains(name, rules[0].token) && forall j :: !Matches(rules[1..], name, j) by {
        if forall i :: !Matches(rules, name, i) {
          assert !Matches(rules, name, 0);
          forall j ensures !Matches(rules[1..], name, j) {
            assert !Matches(rules, name, j + 1);
          }
        }
      }
    }
  }

  ghost predicate MatchesOnly(rules: seq<SupplierRule>, name: string, i: int) {
    Matches(rules, name, i) && forall j :: Matches(rules, name, j) ==> j == i
  }

  lemma {:induction false} OneMatches(rules: seq<SupplierRule>, name: string)
    ensures |Matching(rules, name)| == 1 <==> exists i :: MatchesOnly(rules, name, i)
    ensures forall i :: MatchesOnly(rules, name, i) ==> Matching(rules, name) == [rules[i]]
  {
    if rules != [] {
      var tail := rules[1..];
      OneMatches(tail, name);
      NoneMatch(tail, name);
      assert forall i :: Matches(tail, name, i) ==> Matches(rules, name, i + 1);
      if Contains(name, rules[0].token) {
        assert Matches(rules, name, 0);
        if Matching(tail, name) == [] {
          assert forall j :: Matches(rules, name, j) && j != 0 ==> Matches(tail, name, j - 1);
          assert MatchesOnly(rules, name, 0);
        }
      } else {
        forall i | MatchesOnly(tail, name, i) ensures MatchesOnly(rules, name, i + 1) {
          assert forall j :: Matches(rules, name, j) ==> Matches(tail, name, j - 1);
        }
        forall i | MatchesOnly(rules, name, i) ensures MatchesOnly(tail, name, i - 1) {
          assert forall j :: Matches(tail, name, j) ==> Matches(rules, name, j + 1);
        }
      }
    }
  }

  /** A supplier has a rule exactly when its name contains the token of one rule and of no other. */
  lemma ResolvedExactlyWhen(rules: seq<SupplierRule>, lower: string -> string, name: string, rule: SupplierRule)
    requires name != ""
    ensures Resolve(rules, lower, Some(name)) == Some(rule) <==>
      exists i :: MatchesOnly(rules, lower(name), i) && rules[i] == rule
  {
    OneMatches(rules, lower(name));
  }
}
