/** Matching rules and the order-preserving filter that selects them
    (`filter_rules` inside `Entry.build_entry_string`). */
module Rules {
  import opened Wrappers

  /** The keys a rule section may carry. */
  datatype Key = Account | Dbtr | Cdtr | DbtrAcc | CdtrAcc | Title

  /** One section of the rules file; an absent key is `None`. */
  datatype Rule = Rule(
    account: Option<string>,
    dbtr: Option<string>,
    cdtr: Option<string>,
    dbtrAcc: Option<string>,
    cdtrAcc: Option<string>,
    title: Option<string>)

  /** `rule.get(key)`. */
  function Get(r: Rule, k: Key): Option<string>
  {
    match k
    case Account => r.account
    case Dbtr => r.dbtr
    case Cdtr => r.cdtr
    case DbtrAcc => r.dbtrAcc
    case CdtrAcc => r.cdtrAcc
    case Title => r.title
  }

  /** `rule.get(key, val) == val`: the key is a wildcard when absent. */
  predicate Matches(r: Rule, k: Key, v: string)
  {
    Get(r, k).None? || Get(r, k) == Some(v)
  }

  /** `a` is obtained from `b` by deleting elements, keeping the order of the rest. */
  predicate IsSubsequence<T(==)>(a: seq<T>, b: seq<T>)
    decreases |b|
  {
    if |a| == 0 then true
    else if |b| == 0 then false
    else (a[0] == b[0] && IsSubsequence(a[1..], b[1..])) || IsSubsequence(a, b[1..])
  }

  lemma {:induction false} SubsequenceTransitive<T>(a: seq<T>, b: seq<T>, c: seq<T>)
    requires IsSubsequence(a, b) && IsSubsequence(b, c)
    ensures IsSubsequence(a, c)
    decreases |a| + |b| + |c|
  {
    if |a| > 0 {
      if IsSubsequence(b, c[1..]) {
        SubsequenceTransitive(a, b, c[1..]);
      } else if a[0] == b[0] && IsSubsequence(a[1..], b[1..]) {
        SubsequenceTransitive(a[1..], b[1..], c[1..]);
      } else {
        SubsequenceTransitive(a, b[1..], c[1..]);
      }
    }
  }

  /** `filter_rules`: the rules whose `k` entry is absent or equal to `v`, in their original order. */
  function FilterRules(rules: seq<Rule>, k: Key, v: string): (kept: seq<Rule>)
    ensures |kept| <= |rules|
    ensures forall i :: 0 <= i < |kept| ==> Matches(kept[i], k, v)
  {
    if |rules| == 0 then []
    else
      var rest := FilterRules(rules[1..], k, v);
      if Matches(rules[0], k, v) then [rules[0]] + rest else rest
  }

  /** The filter keeps the matching rules in their original order, each as often as it occurs,
      and drops every other rule. */
  lemma {:induction false} FilterSelectsMatching(rules: seq<Rule>, k: Key, v: string)
    ensures IsSubsequence(FilterRules(rules, k, v), rules)
    ensures forall x :: multiset(FilterRules(rules, k, v))[x]
                     == if Matches(x, k, v) then multiset(rules)[x] else 0
  {
    if |rules| > 0 {
      var rest := FilterRules(rules[1..], k, v);
      FilterSelectsMatching(rules[1..], k, v);
      assert rules == [rules[0]] + rules[1..];
      if Matches(rules[0], k, v) {
        assert ([rules[0]] + rest)[1..] == rest;
      }
    }
  }

  /** A rule survives the filter exactly when it is in the list and matches; a rule that is
      dropped carries the key with some other value. */
  lemma FilterKeepsExactlyMatching(rules: seq<Rule>, k: Key, v: string, x: Rule)
    ensures x in FilterRules(rules, k, v) <==> x in rules && Matches(x, k, v)
    ensures x in rules && x !in FilterRules(rules, k, v) ==> Get(x, k).Some? && Get(x, k).value != v
  {
    var kept := FilterRules(rules, k, v);
    FilterSelectsMatching(rules, k, v);
    assert x in kept <==> multiset(kept)[x] > 0;
    assert x in rules <==> multiset(rules)[x] > 0;
  }

  /** A list whose every rule already matches passes the filter unchanged. */
  lemma {:induction false} FilterAllMatching(rules: seq<Rule>, k: Key, v: string)
    requires forall i :: 0 <= i < |rules| ==> Matches(rules[i], k, v)
    ensures FilterRules(rules, k, v) == rules
  {
    if |rules| > 0 {
      FilterAllMatching(rules[1..], k, v);
      assert rules == [rules[0]] + rules[1..];
    }
  }

  /** Filtering twice by the same key and value is filtering once. */
  lemma {:induction false} FilterIdempotent(rules: seq<Rule>, k: Key, v: string)
    ensures FilterRules(FilterRules(rules, k, v), k, v) == FilterRules(rules, k, v)
  {
    FilterAllMatching(FilterRules(rules, k, v), k, v);
  }

  /** The stages of the filter can be taken in either order. */
  lemma {:induction false} FilterCommutes(rules: seq<Rule>, k1: Key, v1: string, k2: Key, v2: string)
    ensures FilterRules(FilterRules(rules, k1, v1), k2, v2)
         == FilterRules(FilterRules(rules, k2, v2), k1, v1)
  {
    if |rules| > 0 {
      FilterCommutes(rules[1..], k1, v1, k2, v2);
    }
  }
}
