/** Rendering of ledger text: the comment header (`Entry.build_info_string`), one posting
    group (`Entry.entry_template`) and the whole entry string (`Entry.build_entry_string`). */
module Format {
  import opened Wrappers
  import opened Text
  import opened Rules
  import opened Entries
  import opened Resolution

  /** One component of a split creditor account: an account name and its sub-amount. */
  datatype SplitPart = SplitPart(account: string, amount: string)

  /** Where the creditor side of a posting group goes. */
  datatype CreditorTarget = Single(name: string) | Split(parts: seq<SplitPart>)

  /** Raised when the creditor account is unset: `None.startswith` fails. */
  datatype Error = CreditorAccountUnset

  const SplitPrefix := "[["
  const MultipleMatches := ";\n; Multiple matches. Pick one\n"
  const SeparatorWidth := 60

  /** How an f-string shows an optional account: the name, or `None`. */
  function Show(acc: Option<string>): string
  {
    match acc
    case Some(a) => a
    case None => "None"
  }

  /** An account text that starts with `[[` is read as a split; `parseSplit` stands for the
      evaluation of that text into its components. */
  function Target(acc: string, parseSplit: string -> seq<SplitPart>): (t: CreditorTarget)
    ensures t.Split? <==> StartsWith(acc, SplitPrefix)
    ensures t.Single? ==> t.name == acc
    ensures t.Split? ==> t.parts == parseSplit(acc)
  {
    if StartsWith(acc, SplitPrefix) then Split(parseSplit(acc)) else Single(acc)
  }

  /** The first line of a posting group, without its newline. */
  function DateLine(bookDate: string, valDate: string, title: string): string
  {
    if bookDate == valDate then bookDate + " " + title
    else bookDate + "=" + valDate + " " + title
  }

  /** The creditor posting lines, without their newlines. */
  function CreditorLines(target: CreditorTarget, currency: string, amount: string, ind: string): seq<string>
  {
    match target
    case Single(name) => [ind + name + ind + currency + " " + amount]
    case Split(parts) =>
      seq(|parts|, i requires 0 <= i < |parts| =>
        ind + parts[i].account + ind + currency + " " + DecimalComma(parts[i].amount))
  }

  function DebitorLine(dbtrAcc: Option<string>, currency: string, amount: string, ind: string): string
  {
    ind + Show(dbtrAcc) + ind + currency + " -" + amount
  }

  /** One posting group: the date line, the creditor line(s), then the debitor line, which
      carries no trailing newline. */
  function Template(e: Entry, title: string, cdtrAcc: string, dbtrAcc: Option<string>,
                    indent: int, parseSplit: string -> seq<SplitPart>): (s: string)
    ensures StartsWith(s, DateLine(e.bookDate, e.valDate, title) + "\n")
    ensures EndsWith(s, DebitorLine(dbtrAcc, e.currency, e.amount, Spaces(indent)))
  {
    var ind := Spaces(indent);
    var head := DateLine(e.bookDate, e.valDate, title) + "\n";
    var middle := Unlines(CreditorLines(Target(cdtrAcc, parseSplit), e.currency, e.amount, ind));
    var last := DebitorLine(dbtrAcc, e.currency, e.amount, ind);
    assert (head + middle + last)[..|head|] == head;
    assert (head + middle + last)[|head + middle|..] == last;
    head + middle + last
  }

  /** `entry_template` for one posting group: fails exactly when the creditor account is unset. */
  function EntryTemplate(e: Entry, p: Posting, indent: int, parseSplit: string -> seq<SplitPart>)
    : (r: Result<string, Error>)
    ensures r.Failure? <==> p.cdtrAcc.None?
    ensures r.Success? ==> r.value == Template(e, p.title, p.cdtrAcc.value, p.dbtrAcc, indent, parseSplit)
  {
    match p.cdtrAcc
    case None => Failure(CreditorAccountUnset)
    case Some(acc) => Success(Template(e, p.title, acc, p.dbtrAcc, indent, parseSplit))
  }

  /** None of the texts that make up a posting group contains a newline. */
  ghost predicate FieldsSingleLine(e: Entry, title: string, cdtrAcc: string, dbtrAcc: Option<string>,
                                   parseSplit: string -> seq<SplitPart>)
  {
    && '\n' !in e.bookDate && '\n' !in e.valDate && '\n' !in title
    && '\n' !in e.currency && '\n' !in e.amount && '\n' !in Show(dbtrAcc)
    && (!StartsWith(cdtrAcc, SplitPrefix) ==> '\n' !in cdtrAcc)
    && (StartsWith(cdtrAcc, SplitPrefix) ==>
          forall i :: 0 <= i < |parseSplit(cdtrAcc)| ==>
            '\n' !in parseSplit(cdtrAcc)[i].account && '\n' !in parseSplit(cdtrAcc)[i].amount)
  }

  /** The posting group is the join of its date line, creditor lines and debitor line. */
  lemma TemplateIsJoin(e: Entry, title: string, cdtrAcc: string, dbtrAcc: Option<string>,
                       indent: int, parseSplit: string -> seq<SplitPart>)
    ensures var ind := Spaces(indent);
            Template(e, title, cdtrAcc, dbtrAcc, indent, parseSplit)
            == Join([DateLine(e.bookDate, e.valDate, title)]
                    + CreditorLines(Target(cdtrAcc, parseSplit), e.currency, e.amount, ind)
                    + [DebitorLine(dbtrAcc, e.currency, e.amount, ind)])
  {
    var ind := Spaces(indent);
    var date := DateLine(e.bookDate, e.valDate, title);
    var cls := CreditorLines(Target(cdtrAcc, parseSplit), e.currency, e.amount, ind);
    var deb := DebitorLine(dbtrAcc, e.currency, e.amount, ind);
    UnlinesAppend([date], cls);
    UnlinesThenLast([date] + cls, deb);
    assert Unlines([date]) == date + "\n";
  }

  /** Creditor lines built from newline-free pieces are newline-free. */
  lemma CreditorLinesSingle(target: CreditorTarget, currency: string, amount: string, ind: string)
    requires '\n' !in currency && '\n' !in amount && '\n' !in ind
    requires target.Single? ==> '\n' !in target.name
    requires target.Split? ==>
      forall i :: 0 <= i < |target.parts| ==>
        '\n' !in target.parts[i].account && '\n' !in target.parts[i].amount
    ensures SingleLines(CreditorLines(target, currency, amount, ind))
  {
    var cls := CreditorLines(target, currency, amount, ind);
    forall i | 0 <= i < |cls|
      ensures '\n' !in cls[i]
    {
      if target.Split? {
        var part := target.parts[i];
        assert cls[i] == ind + part.account + ind + currency + " " + DecimalComma(part.amount);
      }
    }
  }

  /** Given newline-free fields, the lines of a posting group are exactly its date line,
      its creditor lines and its debitor line. */
  lemma TemplateSplits(e: Entry, title: string, cdtrAcc: string, dbtrAcc: Option<string>,
                       indent: int, parseSplit: string -> seq<SplitPart>)
    requires FieldsSingleLine(e, title, cdtrAcc, dbtrAcc, parseSplit)
    ensures var ind := Spaces(indent);
            SplitLines(Template(e, title, cdtrAcc, dbtrAcc, indent, parseSplit))
            == [DateLine(e.bookDate, e.valDate, title)]
               + CreditorLines(Target(cdtrAcc, parseSplit), e.currency, e.amount, ind)
               + [DebitorLine(dbtrAcc, e.currency, e.amount, ind)]
  {
    var ind := Spaces(indent);
    var date := DateLine(e.bookDate, e.valDate, title);
    var cls := CreditorLines(Target(cdtrAcc, parseSplit), e.currency, e.amount, ind);
    var deb := DebitorLine(dbtrAcc, e.currency, e.amount, ind);
    TemplateIsJoin(e, title, cdtrAcc, dbtrAcc, indent, parseSplit);
    CreditorLinesSingle(Target(cdtrAcc, parseSplit), e.currency, e.amount, ind);
    var all := [date] + cls + [deb];
    assert forall i :: 0 <= i < |all| ==> all[i] == date || all[i] == deb || all[i] in cls;
    SplitJoin(all);
  }

  /** Read line by line, a posting group with a single creditor account is its date line
      (`book=val title`, or `book title` when the two dates agree) and exactly the two posting lines
      `ind cdtr ind currency amount` and `ind dbtr ind currency -amount`. */
  lemma TemplateLinesSingle(e: Entry, title: string, cdtrAcc: string, dbtrAcc: Option<string>,
                            indent: int, parseSplit: string -> seq<SplitPart>)
    requires FieldsSingleLine(e, title, cdtrAcc, dbtrAcc, parseSplit)
    requires !StartsWith(cdtrAcc, SplitPrefix)
    ensures var lines := SplitLines(Template(e, title, cdtrAcc, dbtrAcc, indent, parseSplit));
            var ind := Spaces(indent);
            && |lines| == 3
            && lines[0] == (if e.bookDate == e.valDate then e.bookDate + " " + title
                            else e.bookDate + "=" + e.valDate + " " + title)
            && lines[1] == ind + cdtrAcc + ind + e.currency + " " + e.amount
            && lines[2] == ind + Show(dbtrAcc) + ind + e.currency + " -" + e.amount
  {
    TemplateSplits(e, title, cdtrAcc, dbtrAcc, indent, parseSplit);
  }

  /** Read line by line, a posting group with a split creditor account is its date line, one line
      per component in order with decimal commas in the sub-amount, then the debitor line. The
      split text itself is never printed, so it may span several lines. */
  lemma TemplateLinesSplit(e: Entry, title: string, cdtrAcc: string, dbtrAcc: Option<string>,
                           indent: int, parseSplit: string -> seq<SplitPart>)
    requires FieldsSingleLine(e, title, cdtrAcc, dbtrAcc, parseSplit)
    requires StartsWith(cdtrAcc, SplitPrefix)
    ensures var lines := SplitLines(Template(e, title, cdtrAcc, dbtrAcc, indent, parseSplit));
            var ind := Spaces(indent);
            var parts := parseSplit(cdtrAcc);
            && |lines| == |parts| + 2
            && lines[0] == (if e.bookDate == e.valDate then e.bookDate + " " + title
                            else e.bookDate + "=" + e.valDate + " " + title)
            && (forall i :: 0 <= i < |parts| ==>
                  lines[i + 1] == ind + parts[i].account + ind + e.currency + " "
                                  + DecimalComma(parts[i].amount))
            && lines[|parts| + 1] == ind + Show(dbtrAcc) + ind + e.currency + " -" + e.amount
  {
    TemplateSplits(e, title, cdtrAcc, dbtrAcc, indent, parseSplit);
  }

  /** The summary line of the header, without its newline. */
  function Summary(e: Entry): string
  {
    "; " + e.bookDate + "=" + e.valDate + ": " + e.debitor + " --> " + e.creditor
  }

  const Separator := "; " + Repeat('#', SeparatorWidth)

  /** Each subject line as a comment. */
  function Commented(lines: seq<string>): seq<string>
  {
    seq(|lines|, i requires 0 <= i < |lines| => "; " + lines[i])
  }

  /** `build_info_string`: the comment header. It reads only the entry's fields, not the resolution. */
  function InfoString(e: Entry): (s: string)
    ensures StartsWith(s, Summary(e) + "\n")
    ensures EndsWith(s, Separator + "\n")
  {
    var head := Summary(e) + "\n";
    var tail := Separator + "\n";
    var s := head + Unlines(Commented(e.subject)) + tail;
    assert s[..|head|] == head;
    assert s[|s| - |tail|..] == tail;
    s
  }

  /** The header is the newline-join of the summary, the commented subject lines, the separator
      and the empty text after the final newline. */
  lemma InfoIsJoin(e: Entry)
    ensures InfoString(e) == Join([Summary(e)] + Commented(e.subject) + [Separator] + [""])
  {
    var cs := Commented(e.subject);
    var all := [Summary(e)] + cs + [Separator];
    UnlinesAppend([Summary(e)], cs);
    UnlinesAppend([Summary(e)] + cs, [Separator]);
    assert Unlines([Summary(e)]) == Summary(e) + "\n";
    assert Unlines([Separator]) == Separator + "\n";
    UnlinesThenLast(all, "");
  }

  /** Given newline-free fields, the lines of the header are exactly the summary, the commented
      subject lines, the separator and the empty text after the final newline. */
  lemma InfoSplits(e: Entry)
    requires '\n' !in Summary(e)
    requires SingleLines(e.subject)
    ensures SplitLines(InfoString(e)) == [Summary(e)] + Commented(e.subject) + [Separator] + [""]
  {
    var all := [Summary(e)] + Commented(e.subject) + [Separator] + [""];
    InfoIsJoin(e);
    assert forall i :: 0 <= i < |all| ==> '\n' !in all[i];
    SplitJoin(all);
  }

  /** Read line by line, the header is the summary `; book=val: debitor --> creditor`, one
      `; line` per subject line in order, and the separator of 60 `#`: 2 + |subject| lines,
      each terminated by a newline. */
  lemma InfoLines(e: Entry)
    requires '\n' !in Summary(e)
    requires SingleLines(e.subject)
    ensures var lines := SplitLines(InfoString(e));
            && |lines| == |e.subject| + 3
            && lines[0] == "; " + e.bookDate + "=" + e.valDate + ": " + e.debitor + " --> " + e.creditor
            && (forall i :: 0 <= i < |e.subject| ==> lines[i + 1] == "; " + e.subject[i])
            && lines[|e.subject| + 1] == "; " + Repeat('#', 60)
            && lines[|e.subject| + 2] == ""
  {
    InfoSplits(e);
  }

  /** The group text of a posting; only read where its creditor account is set. */
  function Rendered(e: Entry, p: Posting, indent: int, parseSplit: string -> seq<SplitPart>): string
  {
    Template(e, p.title, p.cdtrAcc.GetOr(""), p.dbtrAcc, indent, parseSplit)
  }

  /** The group texts of a list of postings. */
  function RenderedAll(e: Entry, ps: seq<Posting>, indent: int, parseSplit: string -> seq<SplitPart>)
    : seq<string>
  {
    seq(|ps|, i requires 0 <= i < |ps| => Rendered(e, ps[i], indent, parseSplit))
  }

  /** The group text each rule yields when it admits debitor and creditor. */
  function RuleTemplates(e: Entry, ms: seq<Rule>, cfg: Config, parseSplit: string -> seq<SplitPart>)
    : seq<string>
  {
    seq(|ms|, i requires 0 <= i < |ms| =>
      Template(e, ms[i].title.GetOr(e.creditor), ms[i].cdtrAcc.GetOr(""),
               ms[i].dbtrAcc.OrElse(cfg.defAssetAcc), cfg.ledgerIndent, parseSplit))
  }

  /** The candidate groups of an ambiguous match, each followed by a newline; the first group
      whose creditor account is unset stops the rendering. */
  function RenderCandidates(e: Entry, ps: seq<Posting>, indent: int, parseSplit: string -> seq<SplitPart>)
    : (r: Result<string, Error>)
    ensures r.Success? <==> forall i :: 0 <= i < |ps| ==> ps[i].cdtrAcc.Some?
    ensures r.Success? ==> r.value == Unlines(RenderedAll(e, ps, indent, parseSplit))
  {
    if |ps| == 0 then Success("")
    else
      match EntryTemplate(e, ps[0], indent, parseSplit)
      case Failure(err) => Failure(err)
      case Success(t) =>
        match RenderCandidates(e, ps[1..], indent, parseSplit)
        case Failure(err) => Failure(err)
        case Success(rest) =>
          var all := RenderedAll(e, ps, indent, parseSplit);
          assert all[1..] == RenderedAll(e, ps[1..], indent, parseSplit);
          Success(t + "\n" + rest)
  }

  /** Postings that are the expense candidates of rules `ms`, one per rule in order, render as
      those rules' group texts. */
  lemma CandidatesFollowRules(e: Entry, ps: seq<Posting>, ms: seq<Rule>, cfg: Config,
                              parseSplit: string -> seq<SplitPart>)
    requires |ps| == |ms|
    requires forall i :: 0 <= i < |ms| ==> IsExpenseCandidate(ps[i], ms[i], cfg, e)
    ensures RenderedAll(e, ps, cfg.ledgerIndent, parseSplit) == RuleTemplates(e, ms, cfg, parseSplit)
  {
  }

  /** The text of a resolution: its single posting group, or for an ambiguous match the marker
      followed by every candidate group, each followed by a newline. It fails exactly when some
      group lacks its creditor account. */
  function RenderResolution(e: Entry, res: Resolved, indent: int, parseSplit: string -> seq<SplitPart>)
    : (r: Result<string, Error>)
    requires 1 <= |res.postings|
    requires res.outcome != Ambiguous ==> |res.postings| == 1
    ensures r.Failure? <==> exists i :: 0 <= i < |res.postings| && res.postings[i].cdtrAcc.None?
    ensures res.outcome != Ambiguous && r.Success? ==>
              r.value == Rendered(e, res.postings[0], indent, parseSplit)
    ensures res.outcome == Ambiguous && r.Success? ==>
              r.value == MultipleMatches + Unlines(RenderedAll(e, res.postings, indent, parseSplit))
  {
    if res.outcome == Ambiguous then
      match RenderCandidates(e, res.postings, indent, parseSplit)
      case Failure(err) => Failure(err)
      case Success(body) => Success(MultipleMatches + body)
    else
      EntryTemplate(e, res.postings[0], indent, parseSplit)
  }

  /** `build_entry_string`: the posting group of the resolved outcome, or for an ambiguous match
      the marker followed by one group per rule admitting debitor and creditor, in rule order,
      each followed by a newline. It fails exactly when some group lacks its creditor account. */
  function BuildEntryString(e: Entry, rules: seq<Rule>, cfg: Config, parseSplit: string -> seq<SplitPart>)
    : (r: Result<string, Error>)
    ensures var res := Resolve(rules, cfg, e);
            r.Failure? <==> exists i :: 0 <= i < |res.postings| && res.postings[i].cdtrAcc.None?
    ensures var res := Resolve(rules, cfg, e);
            res.outcome != Ambiguous && r.Success? ==>
              r.value == Template(e, res.postings[0].title, res.postings[0].cdtrAcc.value,
                                  res.postings[0].dbtrAcc, cfg.ledgerIndent, parseSplit)
    ensures var res := Resolve(rules, cfg, e);
            var cm := CreditorMatches(rules, cfg, e.debitor, e.creditor);
            res.outcome == Ambiguous && r.Success? ==>
              r.value == MultipleMatches + Unlines(RuleTemplates(e, cm, cfg, parseSplit))
  {
    var res := Resolve(rules, cfg, e);
    if res.outcome == Ambiguous then
      CandidatesFollowRules(e, res.postings, CreditorMatches(rules, cfg, e.debitor, e.creditor), cfg, parseSplit);
      RenderResolution(e, res, cfg.ledgerIndent, parseSplit)
    else
      RenderResolution(e, res, cfg.ledgerIndent, parseSplit)
  }
}
