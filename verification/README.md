# soa2ledger: rule resolution and ledger-entry formatting

soa2ledger turns the transfers of a bank statement of account into entries of a plain-text
double-entry ledger. For each transfer (book date, value date, amount, currency, creditor,
debitor, subject lines) it looks the transfer up in a list of user rules and writes a ledger
entry: a comment header, then one posting group (date line, creditor posting line(s), debitor
posting line), or, when several rules fit equally well, every candidate group behind a
"Multiple matches. Pick one" marker so that a person can choose.

This project models that engine, the `Entry` class of `soa2ledger.py`, as pure functions:

- `wrappers.dfy` (`Wrappers`): `Option` for a missing dictionary key and `Result` for the
  exception raised when a creditor account is unset.
- `text.dfy` (`Text`): the string operations the formatter uses (`n * " "`,
  `replace(".", ",")`, newline-terminated concatenation) and `SplitLines`, Python's
  `split("\n")`, with its round trip against `"\n".join`, which lets the formatter's output be
  read back line by line.
- `rules.dfy` (`Rules`): a rule is a record of six optional fields (`account`, `dbtr`, `cdtr`,
  `dbtr_acc`, `cdtr_acc`, `title`); `FilterRules` is the nested `filter_rules`, where an absent
  key is a wildcard.
- `entry.dfy` (`Entries`): the transfer record with the field values already extracted, and
  what `Entry.__init__` does to them (decimal commas in the currency, title set to the creditor).
- `resolution.dfy` (`Resolution`): the staged filtering (account, then debitor, then creditor)
  and the five outcomes of `build_entry_string` with the title and accounts of each posting group.
- `format.dfy` (`Format`): `build_info_string`, `entry_template` and the whole entry string.

The resolved options (`ledger_indent`, `def_asset_acc`, `account`) arrive as a `Config` value and
the rules as a list. The evaluation of a split creditor account text (one starting with `[[`)
is a function parameter `parseSplit` that yields the (account, sub-amount) components.

Behaviour as the code has it:

- The main amount is written verbatim in both posting lines. Only split sub-amounts get decimal
  commas (soa2ledger.py:183), and so does the currency (soa2ledger.py:136).
- The candidate groups of an ambiguous match are each followed by a single newline, with no
  blank line between them (soa2ledger.py:249).
- The debitor line prefixes the amount text with `-`. Nothing checks that split sub-amounts add
  up to the amount (soa2ledger.py:182-187).
- An unset debitor account (`match.get('dbtr_acc')` with no such key) is written as `None`. An
  unset creditor account, or an unset `def_asset_acc` where it is used as the creditor account,
  makes `creditor_acc.startswith` raise. The model returns `Failure(CreditorAccountUnset)` for it.
- A catch-all rule without `dbtr` admits every debitor. So "no debitor match" means that every
  rule for the selected account carries a `dbtr` different from the transfer's debitor.

## Model

| member | source | states |
|---|---|---|
| Rules.FilterRules | soa2ledger.py:199-205 | Every kept rule has the key absent or equal to the value, and no more rules come out than went in. |
| Rules.FilterSelectsMatching | soa2ledger.py:199-205 | The kept rules form a subsequence of the input in original order. Each matching rule is kept as often as it occurs and every other rule is dropped. |
| Rules.FilterKeepsExactlyMatching | soa2ledger.py:199-205 | A rule is in the result exactly when it is in the input and matches. A dropped rule carries the key with a different value. |
| Rules.FilterAllMatching | soa2ledger.py:199-205 | A list in which every rule already matches passes the filter unchanged. |
| Rules.FilterIdempotent | soa2ledger.py:199-205 | Filtering twice by the same key and value gives the same list as filtering once. |
| Rules.FilterCommutes | soa2ledger.py:207-211 | Two filter stages give the same list in either order, so the account and debitor stages could be swapped. |
| Entries.NewEntry | soa2ledger.py:129-142 | The title starts out as the creditor. The amount and the dates are kept verbatim. The currency keeps its length, has every full stop turned into a comma and no other character changed. |
| Resolution.DebitorMatches | soa2ledger.py:207-211 | `matches_dbtr`: every rule in it admits the selected account and the debitor, and it is no longer than the rule list. Resolution.DebitorMatchesExact shows it holds every such rule, in rule order. |
| Resolution.DebitorMatchesExact | soa2ledger.py:207-211 | The debitor matches are the rules for the selected account that admit the debitor, in rule order, each as often as it occurs. |
| Resolution.CreditorMatchesExact | soa2ledger.py:228-229 | The creditor matches are the rules that admit account, debitor and creditor, in rule order, each as often as it occurs. |
| Resolution.CreditorMatches | soa2ledger.py:228-229 | `matches_cdtr`: every rule in it admits the selected account, the debitor and the creditor, and it is no longer than the rule list. Resolution.CreditorMatchesExact shows it holds every such rule, in rule order. |
| Resolution.NoDebitorMatch | soa2ledger.py:211-212 | There are no debitor matches exactly when no rule admits both the selected account and the debitor. |
| Resolution.SoleDebitorMatch | soa2ledger.py:218-222 | A single debitor match occurs once in the rule list. It is the only rule that admits the debitor. |
| Resolution.NoCreditorMatch | soa2ledger.py:229-230 | There are no creditor matches exactly when no rule admits account, debitor and creditor. |
| Resolution.SoleCreditorMatch | soa2ledger.py:235-237 | A single creditor match occurs once in the rule list. It is the only rule that admits account, debitor and creditor. |
| Resolution.Resolve | soa2ledger.py:207-226 | There is always at least one posting group, and exactly one unless the match is ambiguous. Unmatched incoming happens exactly when no rule admits the debitor. Its group is titled with the debitor, with the default asset account as creditor account and `Income:???` as debitor account. A single income match happens exactly when one rule admits the debitor, whatever the creditor. That rule gives the title (default: the creditor) and the debitor account. It also gives the creditor account, with the default asset account as the fallback. |
| Resolution.ResolveExpense | soa2ledger.py:227-249 | Applies when two or more rules admit the debitor. Unmatched expense happens exactly when no rule also admits the creditor. Its group keeps the entry's title, with `Expenses:???` as creditor account and the default asset account as debitor account. A single expense match happens when exactly one rule also admits the creditor. That rule gives the title (default: the creditor) and the creditor account. It also gives the debitor account, with the default asset account as the fallback. Two or more creditor matches give an ambiguous match with one such group per matching rule, in rule order. |
| Resolution.UnmatchedExpenseTitledByCreditor | soa2ledger.py:227-234 | For a freshly built entry, an unknown expense is titled with the creditor, because the title set at soa2ledger.py:142 is never overwritten on that path. |
| Resolution.SingleIncomeIgnoresCreditor | soa2ledger.py:218-226 | With exactly one debitor match, entries that differ only in their creditor are resolved as single income matches with the same accounts. |
| Resolution.TwoSupermarketRules | soa2ledger.py:242-249 | Two rules that both admit debitor `Myself` and creditor `Supermarket`, with different creditor accounts, give an ambiguous match. It has two groups titled `Supermarket`, in rule order, each with the default asset account as debitor account. |
| Format.Target | soa2ledger.py:180-181 | The creditor account is a split exactly when its text starts with `[[`. Otherwise it is the account text itself. |
| Format.Template | soa2ledger.py:164-188 | A posting group starts with its date line and a newline. It ends with the debitor line, which has no newline after it. |
| Format.EntryTemplate | soa2ledger.py:180-188 | Rendering a posting group fails exactly when its creditor account is unset. |
| Format.TemplateIsJoin | soa2ledger.py:176-187 | A posting group is the newline-join of its date line, creditor lines and debitor line. |
| Format.TemplateLinesSingle | soa2ledger.py:175-187 | Read back line by line, a posting group with one creditor account has exactly three lines. The first is `book=val title`, or `book title` when the dates agree. Then come `ind cdtr ind currency amount` and `ind dbtr ind currency -amount`. |
| Format.TemplateLinesSplit | soa2ledger.py:175-187 | Read back line by line, a posting group with a split creditor (text starting with `[[`) has the date line first. Then comes one line per component in order, with decimal commas in the sub-amount. The debitor line is last, so there are two lines more than components. |
| Format.InfoString | soa2ledger.py:156-162 | The header starts with the `; book=val: debitor --> creditor` line. It ends with the `#` separator line. |
| Format.InfoIsJoin | soa2ledger.py:156-162 | The header is the newline-join of the summary, the commented subject lines, the separator and the empty text after the final newline. |
| Format.InfoLines | soa2ledger.py:156-162 | Read back line by line, the header has 2 + number-of-subject-lines lines, each ending in a newline. They are the summary, one `; line` per subject line in order, and `; ` followed by 60 `#`. |
| Format.RenderCandidates | soa2ledger.py:244-249 | Candidate rendering succeeds exactly when every candidate has a creditor account. Its text is each candidate's group followed by a newline, in order. |
| Format.CandidatesFollowRules | soa2ledger.py:244-249 | The expense candidates of a list of rules render as those rules' groups, one per rule in order. |
| Format.RenderResolution | soa2ledger.py:212-249 | The text of a resolved entry is its single group, or the marker followed by every candidate group. It fails exactly when some group lacks a creditor account. |
| Format.BuildEntryString | soa2ledger.py:190-250 | The entry string fails exactly when a resolved group lacks its creditor account. Otherwise it is the single group's text, or, for an ambiguous match, `;\n; Multiple matches. Pick one\n` followed by one group per rule that admits debitor and creditor, in rule order, each followed by a newline. |
| Text.DecimalComma | soa2ledger.py:183 | Every full stop becomes a comma. No other character changes and the length is kept. |
| Text.Spaces | soa2ledger.py:175 | The indent consists of `ledger_indent` space characters. It is empty when that number is zero or negative. |

## Left out

- Option loading (`get_updated_options`, soa2ledger.py:29-64): config and argument parsing and file reads. The model takes an already-resolved `Config` and a rule list.
- Reading the statement (`iterable_from_file`, soa2ledger.py:67-97): XML and CSV parsing.
- Editing and appending (`edit_string_with_editor`, `append_to_ledger`, soa2ledger.py:100-121): a subprocess, a temporary file and a file append.
- `main` (soa2ledger.py:253-270): the batch loop, the reverse-order flag and dry-run printing.
- Field extraction (`eval_rule`, soa2ledger.py:144-154): it evaluates configured Python expressions. The model takes the extracted values as strings, and the subject as a list of strings. A subject that is a plain string, which the source iterates character by character, is not modelled. Nor are non-string values such as numbers from a CSV row.
- Split evaluation (`eval(creditor_acc)`, soa2ledger.py:181): the model receives the parsed components through `parseSplit`. A malformed split text, and components that are not (account, amount) pairs, are not modelled. Nor is the `str()` of a non-string sub-amount.
- Rule sections inheriting keys from the rules file's DEFAULT section, and the lower-casing of keys by the config parser, belong to loading and are not modelled.
- `int(ledger_indent)` failing on a non-numeric option is not modelled; the indent is an integer.
- The mutable `self.title`, `self.creditor_acc` and `self.debitor_acc` fields become returned values. Their leftover values after `build_entry_string` are not observable in the program, and the model does not keep them.
- Format.TemplateLinesSingle: this line-by-line reading assumes that the printed fields contain no newline. A field with a newline changes the line count but not the text. Format.TemplateIsJoin states the whole text for every input.
- Format.TemplateLinesSplit: this line-by-line reading assumes that the printed fields and each component's account and sub-amount contain no newline. The split text itself is never printed, so it may contain newlines. Format.TemplateIsJoin states the whole text for every input.
- Format.InfoLines: this line-by-line reading assumes that the summary and the subject lines contain no newline. Format.InfoIsJoin states the whole header for every input.
