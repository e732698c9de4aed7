/** Resolution of one entry against the rule list: which of the five outcomes applies,
    and which title and accounts each resulting posting group carries
    (the case analysis of `Entry.build_entry_string`). */
module Resolution {
  import opened Wrappers
  import opened Rules
  import opened Entries

  /** The already-resolved options the engine reads. */
  datatype Config = Config(ledgerIndent: int, defAssetAcc: Option<string>, account: string)

  const UnknownIncome := "Income:???"
  const UnknownExpense := "Expenses:???"

  datatype Outcome =
    | UnmatchedIncoming
    | SingleIncomeMatch
    | UnmatchedExpense
    | SingleExpenseMatch
    | Ambiguous

  /** Title and accounts of one posting group; an account is `None` when the
      rule it came from does not set it. */
  datatype Posting = Posting(title: string, cdtrAcc: Option<string>, dbtrAcc: Option<string>)

  datatype Resolved = Resolved(outcome: Outcome, postings: seq<Posting>)

  /** A rule for the selected ledger account whose debitor condition admits `debitor`. */
  predicate AdmitsDebitor(r: Rule, cfg: Config, debitor: string)
  {
    Matches(r, Account, cfg.account) && Matches(r, Dbtr, debitor)
  }

  /** ... whose creditor condition also admits `creditor`. */
  predicate AdmitsBoth(r: Rule, cfg: Config, debitor: string, creditor: string)
  {
    AdmitsDebitor(r, cfg, debitor) && Matches(r, Cdtr, creditor)
  }

  /** `matches_dbtr`: the account-scoped rules filtered by debitor. Every one admits the debitor;
      `DebitorMatchesExact` shows that every admitting rule is among them, in rule order. */
  function DebitorMatches(rules: seq<Rule>, cfg: Config, debitor: string): (dm: seq<Rule>)
    ensures |dm| <= |rules|
    ensures forall i :: 0 <= i < |dm| ==> AdmitsDebitor(dm[i], cfg, debitor)
  {
    var scoped := FilterRules(rules, Account, cfg.account);
    var dm := FilterRules(scoped, Dbtr, debitor);
    forall i | 0 <= i < |dm|
      ensures AdmitsDebitor(dm[i], cfg, debitor)
    {
      FilterKeepsExactlyMatching(scoped, Dbtr, debitor, dm[i]);
      FilterKeepsExactlyMatching(rules, Account, cfg.account, dm[i]);
    }
    dm
  }

  /** `matches_cdtr`: the debitor matches filtered by creditor. Every one admits debitor and
      creditor; `CreditorMatchesExact` shows that every admitting rule is among them, in rule order. */
  function CreditorMatches(rules: seq<Rule>, cfg: Config, debitor: string, creditor: string): (cm: seq<Rule>)
    ensures |cm| <= |rules|
    ensures forall i :: 0 <= i < |cm| ==> AdmitsBoth(cm[i], cfg, debitor, creditor)
  {
    var dm := DebitorMatches(rules, cfg, debitor);
    var cm := FilterRules(dm, Cdtr, creditor);
    forall i | 0 <= i < |cm|
      ensures AdmitsBoth(cm[i], cfg, debitor, creditor)
    {
      FilterKeepsExactlyMatching(dm, Cdtr, creditor, cm[i]);
    }
    cm
  }

  /** The debitor matches are the rules admitting the debitor, in rule order, each as often
      as it occurs in the rule list. */
  lemma DebitorMatchesExact(rules: seq<Rule>, cfg: Config, debitor: string)
    ensures IsSubsequence(DebitorMatches(rules, cfg, debitor), rules)
    ensures forall x :: multiset(DebitorMatches(rules, cfg, debitor))[x]
                     == if AdmitsDebitor(x, cfg, debitor) then multiset(rules)[x] else 0
  {
    var scoped := FilterRules(rules, Account, cfg.account);
    FilterSelectsMatching(rules, Account, cfg.account);
    FilterSelectsMatching(scoped, Dbtr, debitor);
    SubsequenceTransitive(DebitorMatches(rules, cfg, debitor), scoped, rules);
  }

  /** The creditor matches are the rules admitting debitor and creditor, in rule order, each as
      often as it occurs in the rule list. */
  lemma CreditorMatchesExact(rules: seq<Rule>, cfg: Config, debitor: string, creditor: string)
    ensures IsSubsequence(CreditorMatches(rules, cfg, debitor, creditor), rules)
    ensures forall x :: multiset(CreditorMatches(rules, cfg, debitor, creditor))[x]
                     == if AdmitsBoth(x, cfg, debitor, creditor) then multiset(rules)[x] else 0
  {
    var dm := DebitorMatches(rules, cfg, debitor);
    DebitorMatchesExact(rules, cfg, debitor);
    FilterSelectsMatching(dm, Cdtr, creditor);
    SubsequenceTransitive(CreditorMatches(rules, cfg, debitor, creditor), dm, rules);
  }

  /** A list is empty exactly when no rule of `rules` satisfies `admits`, given that it holds
      each admitted rule as often as `rules` does and nothing else. */
  lemma EmptyIffNoneAdmitted(picked: seq<Rule>, rules: seq<Rule>, admits: Rule -> bool)
    requires forall x :: multiset(picked)[x] == if admits(x) then multiset(rules)[x] else 0
    ensures |picked| == 0 <==> forall x :: x in rules ==> !admits(x)
  {
    if |picked| > 0 {
      assert multiset(picked)[picked[0]] > 0;
    } else {
      forall x | x in rules
        ensures !admits(x)
      {
        assert multiset(rules)[x] > 0;
      }
    }
  }

  /** A one-element list is the only rule of `rules` satisfying `admits`, which occurs once. */
  lemma SoleAdmitted(picked: seq<Rule>, rules: seq<Rule>, admits: Rule -> bool)
    requires forall x :: multiset(picked)[x] == if admits(x) then multiset(rules)[x] else 0
    requires |picked| == 1
    ensures picked[0] in rules && admits(picked[0]) && multiset(rules)[picked[0]] == 1
    ensures forall x :: x in rules && admits(x) ==> x == picked[0]
  {
    assert picked == [picked[0]];
    assert multiset(picked)[picked[0]] == 1;
    forall x | x in rules && admits(x)
      ensures x == picked[0]
    {
      assert multiset(rules)[x] > 0;
    }
  }

  /** The posting group a rule yields once it matches on debitor and creditor:
      its title or the creditor, its creditor account, its debitor account or the default. */
  predicate IsExpenseCandidate(p: Posting, m: Rule, cfg: Config, e: Entry)
  {
    && p.title == m.title.GetOr(e.creditor)
    && p.cdtrAcc == m.cdtrAcc
    && p.dbtrAcc == m.dbtrAcc.OrElse(cfg.defAssetAcc)
  }

  function ExpenseCandidate(m: Rule, cfg: Config, e: Entry): (p: Posting)
    ensures IsExpenseCandidate(p, m, cfg, e)
  {
    Posting(m.title.GetOr(e.creditor), m.cdtrAcc, m.dbtrAcc.OrElse(cfg.defAssetAcc))
  }

  /** No rule admits the debitor exactly when there are no debitor matches. */
  lemma NoDebitorMatch(rules: seq<Rule>, cfg: Config, debitor: string)
    ensures |DebitorMatches(rules, cfg, debitor)| == 0
        <==> forall x :: x in rules ==> !AdmitsDebitor(x, cfg, debitor)
  {
    DebitorMatchesExact(rules, cfg, debitor);
    EmptyIffNoneAdmitted(DebitorMatches(rules, cfg, debitor), rules, x => AdmitsDebitor(x, cfg, debitor));
  }

  /** A single debitor match is the one rule occurrence admitting the debitor. */
  lemma SoleDebitorMatch(rules: seq<Rule>, cfg: Config, debitor: string)
    requires |DebitorMatches(rules, cfg, debitor)| == 1
    ensures var m := DebitorMatches(rules, cfg, debitor)[0];
            && m in rules && AdmitsDebitor(m, cfg, debitor) && multiset(rules)[m] == 1
            && forall x :: x in rules && AdmitsDebitor(x, cfg, debitor) ==> x == m
  {
    DebitorMatchesExact(rules, cfg, debitor);
    SoleAdmitted(DebitorMatches(rules, cfg, debitor), rules, x => AdmitsDebitor(x, cfg, debitor));
  }

  /** No rule admits debitor and creditor exactly when there are no creditor matches. */
  lemma NoCreditorMatch(rules: seq<Rule>, cfg: Config, debitor: string, creditor: string)
    ensures |CreditorMatches(rules, cfg, debitor, creditor)| == 0
        <==> forall x :: x in rules ==> !AdmitsBoth(x, cfg, debitor, creditor)
  {
    CreditorMatchesExact(rules, cfg, debitor, creditor);
    EmptyIffNoneAdmitted(CreditorMatches(rules, cfg, debitor, creditor), rules,
      x => AdmitsBoth(x, cfg, debitor, creditor));
  }

  /** A single creditor match is the one rule occurrence admitting debitor and creditor. */
  lemma SoleCreditorMatch(rules: seq<Rule>, cfg: Config, debitor: string, creditor: string)
    requires |CreditorMatches(rules, cfg, debitor, creditor)| == 1
    ensures var m := CreditorMatches(rules, cfg, debitor, creditor)[0];
            && m in rules && AdmitsBoth(m, cfg, debitor, creditor) && multiset(rules)[m] == 1
            && forall x :: x in rules && AdmitsBoth(x, cfg, debitor, creditor) ==> x == m
  {
    CreditorMatchesExact(rules, cfg, debitor, creditor);
    SoleAdmitted(CreditorMatches(rules, cfg, debitor, creditor), rules,
      x => AdmitsBoth(x, cfg, debitor, creditor));
  }

  /** The branch for two or more debitor matches, split further by creditor. */
  function ResolveExpense(rules: seq<Rule>, cfg: Config, e: Entry): (res: Resolved)
    requires |DebitorMatches(rules, cfg, e.debitor)| >= 2
    ensures 1 <= |res.postings|
    ensures res.outcome == UnmatchedExpense
        <==> forall x :: x in rules ==> !AdmitsBoth(x, cfg, e.debitor, e.creditor)
    ensures res.outcome == UnmatchedExpense ==>
      res.postings == [Posting(e.title, Some(UnknownExpense), cfg.defAssetAcc)]
    ensures res.outcome == SingleExpenseMatch
        <==> |CreditorMatches(rules, cfg, e.debitor, e.creditor)| == 1
    ensures res.outcome == SingleExpenseMatch ==>
      var m := CreditorMatches(rules, cfg, e.debitor, e.creditor)[0];
      && m in rules && AdmitsBoth(m, cfg, e.debitor, e.creditor) && multiset(rules)[m] == 1
      && (forall x :: x in rules && AdmitsBoth(x, cfg, e.debitor, e.creditor) ==> x == m)
      && |res.postings| == 1 && IsExpenseCandidate(res.postings[0], m, cfg, e)
    ensures res.outcome == Ambiguous
        <==> |CreditorMatches(rules, cfg, e.debitor, e.creditor)| >= 2
    ensures res.outcome == Ambiguous ==>
      var cm := CreditorMatches(rules, cfg, e.debitor, e.creditor);
      && |res.postings| == |cm|
      && forall i :: 0 <= i < |cm| ==> IsExpenseCandidate(res.postings[i], cm[i], cfg, e)
    ensures res.outcome != UnmatchedIncoming && res.outcome != SingleIncomeMatch
    ensures res.outcome != Ambiguous ==> |res.postings| == 1
  {
    var byCreditor := FilterRules(DebitorMatches(rules, cfg, e.debitor), Cdtr, e.creditor);
    NoCreditorMatch(rules, cfg, e.debitor, e.creditor);
    if |byCreditor| == 0 then
      Resolved(UnmatchedExpense, [Posting(e.title, Some(UnknownExpense), cfg.defAssetAcc)])
    else if |byCreditor| == 1 then
      SoleCreditorMatch(rules, cfg, e.debitor, e.creditor);
      Resolved(SingleExpenseMatch, [ExpenseCandidate(byCreditor[0], cfg, e)])
    else
      Resolved(Ambiguous,
        seq(|byCreditor|, i requires 0 <= i < |byCreditor| => ExpenseCandidate(byCreditor[i], cfg, e)))
  }

  /** Resolves an entry against the rules. Every outcome is characterised by which rules admit the
      entry's debitor and creditor, and every outcome yields at least one posting group. */
  function Resolve(rules: seq<Rule>, cfg: Config, e: Entry): (res: Resolved)
    ensures 1 <= |res.postings|
    ensures res.outcome != Ambiguous ==> |res.postings| == 1
    // no rule admits the debitor: incoming from an unknown source
    ensures res.outcome == UnmatchedIncoming
        <==> forall x :: x in rules ==> !AdmitsDebitor(x, cfg, e.debitor)
    ensures res.outcome == UnmatchedIncoming ==>
      res.postings == [Posting(e.debitor, cfg.defAssetAcc, Some(UnknownIncome))]
    // exactly one rule admits the debitor, whatever the creditor
    ensures res.outcome == SingleIncomeMatch <==> |DebitorMatches(rules, cfg, e.debitor)| == 1
    ensures res.outcome == SingleIncomeMatch ==>
      var m := DebitorMatches(rules, cfg, e.debitor)[0];
      && m in rules && AdmitsDebitor(m, cfg, e.debitor) && multiset(rules)[m] == 1
      && (forall x :: x in rules && AdmitsDebitor(x, cfg, e.debitor) ==> x == m)
      && res.postings == [Posting(m.title.GetOr(e.creditor), m.cdtrAcc.OrElse(cfg.defAssetAcc), m.dbtrAcc)]
    // two or more rules admit the debitor: the creditor decides
    ensures |DebitorMatches(rules, cfg, e.debitor)| >= 2 ==> res == ResolveExpense(rules, cfg, e)
  {
    var byDebitor := DebitorMatches(rules, cfg, e.debitor);
    NoDebitorMatch(rules, cfg, e.debitor);
    if |byDebitor| == 0 then
      Resolved(UnmatchedIncoming, [Posting(e.debitor, cfg.defAssetAcc, Some(UnknownIncome))])
    else if |byDebitor| == 1 then
      SoleDebitorMatch(rules, cfg, e.debitor);
      var m := byDebitor[0];
      Resolved(SingleIncomeMatch,
        [Posting(m.title.GetOr(e.creditor), m.cdtrAcc.OrElse(cfg.defAssetAcc), m.dbtrAcc)])
    else
      ResolveExpense(rules, cfg, e)
  }

  /** For an entry fresh from its fields, an unknown expense is titled with the creditor. */
  lemma UnmatchedExpenseTitledByCreditor(rules: seq<Rule>, cfg: Config,
      bookDate: string, valDate: string, amount: string, currency: string,
      creditor: string, debitor: string, subject: seq<string>)
    requires Resolve(rules, cfg, NewEntry(bookDate, valDate, amount, currency, creditor, debitor, subject)).outcome
             == UnmatchedExpense
    ensures Resolve(rules, cfg, NewEntry(bookDate, valDate, amount, currency, creditor, debitor, subject)).postings
            == [Posting(creditor, Some(UnknownExpense), cfg.defAssetAcc)]
  {
  }

  /** With exactly one debitor match the accounts do not depend on the creditor at all:
      two entries differing only in their creditor resolve to the same accounts. */
  lemma SingleIncomeIgnoresCreditor(rules: seq<Rule>, cfg: Config, e: Entry, otherCreditor: string)
    requires |DebitorMatches(rules, cfg, e.debitor)| == 1
    ensures var r1 := Resolve(rules, cfg, e);
            var r2 := Resolve(rules, cfg, e.(creditor := otherCreditor));
            && r1.outcome == r2.outcome == SingleIncomeMatch
            && r1.postings[0].cdtrAcc == r2.postings[0].cdtrAcc
            && r1.postings[0].dbtrAcc == r2.postings[0].dbtrAcc
  {
  }

  /** Two rules that both admit the debitor `Myself` and the creditor `Supermarket`, with different
      creditor accounts, make an ambiguous match with one group per rule, in rule order. */
  lemma TwoSupermarketRules(defAsset: Option<string>, indent: int, bookDate: string, amount: string)
    ensures var food := Rule(None, Some("Myself"), Some("Supermarket"), None, Some("Expenses:Food"), None);
            var home := Rule(None, Some("Myself"), Some("Supermarket"), None, Some("Expenses:Home"), None);
            var e := NewEntry(bookDate, bookDate, amount, "EUR", "Supermarket", "Myself", []);
            var res := Resolve([food, home], Config(indent, defAsset, "Giro"), e);
            && res.outcome == Ambiguous
            && res.postings == [Posting("Supermarket", Some("Expenses:Food"), defAsset),
                                Posting("Supermarket", Some("Expenses:Home"), defAsset)]
  {
    var food := Rule(None, Some("Myself"), Some("Supermarket"), None, Some("Expenses:Food"), None);
    var home := Rule(None, Some("Myself"), Some("Supermarket"), None, Some("Expenses:Home"), None);
    var cfg := Config(indent, defAsset, "Giro");
    var e := NewEntry(bookDate, bookDate, amount, "EUR", "Supermarket", "Myself", []);
    FilterAllMatching([food, home], Account, "Giro");
    FilterAllMatching([food, home], Dbtr, "Myself");
    FilterAllMatching([food, home], Cdtr, "Supermarket");
    assert CreditorMatches([food, home], cfg, e.debitor, e.creditor) == [food, home];
  }
}
