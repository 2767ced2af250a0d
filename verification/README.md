# SC Refinery core, modelled in Dafny

SC Refinery is a web service for managing team mining sessions in Star
Citizen. This project models the parts of it that compute rather than store
or route:

- **The payout calculator** (`calc_payout_summary`). It takes a mining
  session: a creator, its invited users and its entries, each entry a
  user's profit. It sums each member's profit and the total, and splits the
  total evenly between the members. Members above the average are *payers*
  and members below it are *payees*. Each payer, largest surplus first,
  walks the payees, smallest deficit first, and records a transfer of the
  smaller of the two running balances. Every reported amount is rounded to
  cents, half away from zero. The report lists per-member profits, largest
  first, and the payers' transfer groups, by payer name, last name first;
  each group lists its recipients, largest amount first.
- **Row grouping** (`group_rows` with `group_init` and the `group_rel_*`
  closures). It folds flat SQL join rows into nested records, one per row
  id, in order of first appearance, building each record in place.
- **Helpers** from `util.py`:
  - `parse_dict_str`, the `k:v;k:v` filter and sort strings;
  - `parse_cookie_header`;
  - `is_authorized`, scope checks by shell-style globs;
  - `first`;
  - `format_validation_errors`.
- **Request validation**:
  - `schema_validate` and `_resource_validator`, which strips the
    server-managed keys `created`, `updated` and `id` from the request dict
    in place;
  - the password check `user_validate_password`, which replaces
    `password` and `password_confirm` by `password_hash` in place.
- **The CSRF check** of the Google sign-in callback (`csrf_check`).

Money is exact (`real`). Cent rounding is written out as `Money.RoundCents`.
Python dicts keep insertion order, so they are a sequence of keys plus a
map, or an association list with distinct keys. Python's stable `sorted` is
`Sorting.SortBy`, an insertion sort on a strict "goes before" relation.

Code that changes state is imperative here too:
- the calculator's loops (`Payout.AccumulateProfits`, `Payout.PayPayer`,
  `Payout.PayAll`, `Payout.CalcPayoutSummary`);
- the ordered dict of groups (`RowGrouping.GroupTable`);
- the mutable request dict (`Values.Dict`) that
  `UserPassword.UserValidatePassword` and `Validation.ResourceValidator.Validate`
  update.

Each method is proved equal to a specification function. What the source
promises is proved about that function as lemmas.

Where the tests and the code disagree, the code is followed:
- `tests/mining_session/test_payout_summary.py:194-195` lists recipients in
  ascending order. Line 218 of the calculator sorts them largest first, and
  so does the model.
- The tests expect a summary for a session without entries. The calculator
  omits the required `user_profits` field there, which the model reports as
  a failure (see Findings).

Modules (one per file):
- Wrappers, Money, Sorting, Collections, Strings and Values hold the Python
  building blocks.
- Payout holds the calculator; PayoutProperties and PayoutFindings hold what
  is proved about it.
- RowGrouping, Util, Validation, UserPassword and GoogleSignin each model
  one source file.

## Model

| member | source | states |
|---|---|---|
| Money.RoundCents | screfinery/stores/mining_session_store.py:154-158 | the result is a whole number of cents within half a cent of the input; ties go away from zero (`ROUND_HALF_UP`) |
| Money.RoundCentsUnique | screfinery/stores/mining_session_store.py:154-158 | any whole-cent value within the rounding window is the rounded value, so the rounding is uniquely determined |
| Money.RoundCentsIdempotent | screfinery/stores/mining_session_store.py:202 | an amount already in cents is left unchanged by quantizing to 0.01 |
| Money.RoundCentsOdd | screfinery/stores/mining_session_store.py:154-158 | rounding half away from zero is symmetric: rounding `-x` gives minus the rounding of `x` |
| Money.RoundCentsMonotonic | screfinery/stores/mining_session_store.py:202 | rounding keeps the order of amounts, so sorting by rounded amount agrees with the unrounded order |
| Payout.Members | screfinery/stores/mining_session_store.py:169 | `[creator, *users_invited]`: the creator first, then the invited users in their order, duplicates kept |
| Payout.ProfitMap | screfinery/stores/mining_session_store.py:171-173 | `user_profits` has exactly the members as keys |
| Payout.AccumulateProfits | screfinery/stores/mining_session_store.py:171-173 | the loop starts every member at 0 and leaves each member's key holding the sum of its entries' profits |
| Payout.PayPayees | screfinery/stores/mining_session_store.py:191-204 | one payer's run over the payees keeps the key sets of both balance dicts |
| Payout.Settle | screfinery/stores/mining_session_store.py:188-204 | the run of all payers keeps the key sets of both balance dicts |
| Payout.PayPayer | screfinery/stores/mining_session_store.py:191-204 | the inner loop leaves the balances and the recipient list of `PayPayees`: a payee at 0 is skipped, otherwise the smaller balance is taken from the payer, ADDED to the payee and recorded in cents |
| Payout.PaidPayeesPay | screfinery/stores/mining_session_store.py:194-204 | one payment (min of the balances, payer debited, payee credited, rounded entry appended) extends the first-`q`-payees run by payee `q` |
| Payout.PayAll | screfinery/stores/mining_session_store.py:188-204 | the outer loop leaves the `payouts` groups of `Settle`: one group per payer that recorded a transfer, in processing order |
| Payout.PaidNext | screfinery/stores/mining_session_store.py:190-204 | one more payer, run against the balances the earlier payers left, extends the first-`p`-payers settlement; a new group appears only when it recorded a transfer |
| Payout.Recorded | screfinery/stores/mining_session_store.py:199-203 | one reported recipient per transfer |
| Payout.NewPayoutSummary | screfinery/schema.py:388-392 | the response model is built exactly when `user_profits` is given, and then holds the four fields as passed |
| Payout.PayoutSummaryOf | screfinery/stores/mining_session_store.py:160-166 | the summary is built exactly when the session has entries; otherwise the schema refuses it for the missing `user_profits` |
| Payout.CalcPayoutSummary | screfinery/stores/mining_session_store.py:161-222 | the calculator returns exactly the summary the specification function `PayoutSummaryOf` describes |
| PayoutProperties.EmptySessionRejected | screfinery/stores/mining_session_store.py:162-166 | a session without entries yields the missing-`user_profits` error whatever its creator and invited users, which are never read |
| PayoutProperties.ProfitsSumToTotal | screfinery/stores/mining_session_store.py:168-173 | each member's profit is the sum of its entries (0 if none), and the members' profits add up to the total of all entries |
| Payout.Average | screfinery/stores/mining_session_store.py:169-174 | the average times `1 + len(users_invited)` is the total, so a repeated member is counted twice in the divisor |
| Payout.OverAverage | screfinery/stores/mining_session_store.py:175-179 | at most one entry per key; each entry is a member with profit above the average, paired with its surplus |
| Payout.UnderAverage | screfinery/stores/mining_session_store.py:180-184 | at most one entry per key; each entry is a member with profit below the average, paired with its deficit |
| PayoutProperties.OverAverageMembers | screfinery/stores/mining_session_store.py:175-179 | `(u, d)` is a payer entry if and only if `u` is a member with profit above the average and `d` its surplus |
| PayoutProperties.UnderAverageMembers | screfinery/stores/mining_session_store.py:180-184 | `(u, d)` is a payee entry if and only if `u` is a member with profit below the average and `d` its deficit |
| PayoutProperties.AtAverageNeither | screfinery/stores/mining_session_store.py:176-185 | a member exactly at the average is neither a payer nor a payee |
| PayoutProperties.OrdersAreStrictWeak | screfinery/stores/mining_session_store.py:186-221 | the four sort keys (surplus descending, deficit ascending, amount descending, name descending) are strict weak orders, so the sorts are well defined |
| PayoutProperties.ProcessingOrder | screfinery/stores/mining_session_store.py:186-187 | payers are ordered by surplus descending and payees by deficit ascending, as permutations of the dicts' items, with ties in member order |
| PayoutProperties.PayPayeesAsWritten | screfinery/stores/mining_session_store.py:191-198 | from a positive deficit for each payee, every payee gets a transfer, in order. Each amount lies between 0 and what the payer has left, so an exhausted payer records 0. The payer's balance drops by the sum and stays at least 0, and each payee's balance GROWS by what it got |
| PayoutProperties.PayeeStillOwed | screfinery/stores/mining_session_store.py:192-198 | a payee that starts below average never reaches 0 during a run, so the skip on line 192 never fires for it |
| PayoutProperties.SettleAsWritten | screfinery/stores/mining_session_store.py:188-204 | over all payers, each payer records exactly one group when there are payees, bounded by its own surplus. Unprocessed payers are untouched, and each payee's balance ends above its deficit by everything it was paid |
| PayoutProperties.ReceivedAllNonNegative | screfinery/stores/mining_session_store.py:196 | what a payee receives over the whole settlement is never negative |
| PayoutProperties.SettlementOfAsWritten | screfinery/stores/mining_session_store.py:176-204 | for a session's own payers and payees: both lists are duplicate-free, every payer has a balance, and the settlement satisfies the facts of SettleAsWritten |
| PayoutProperties.SortedLines | screfinery/stores/mining_session_store.py:208-214 | report lines sorted by amount are the same lines, largest first, still in cents |
| PayoutProperties.PayoutItemsInOrder | screfinery/stores/mining_session_store.py:215-220 | every payout item lists its recipients in cents, largest first |
| PayoutProperties.SortedItems | screfinery/stores/mining_session_store.py:215-221 | payout items sorted by payer name are the same items, last name first, recipients still in order |
| PayoutProperties.SummaryReport | screfinery/stores/mining_session_store.py:205-222 | a session with entries is reported. Totals are rounded to cents. `user_profits` is each member once, in cents, largest first. The payouts are the settlement's groups by payer name, last first, each with its recipients in cents, largest first |
| PayoutFindings.OverpaidPayee | screfinery/stores/mining_session_store.py:198 | for the session a=60, b=60, c=0, d=0 (average 30), payee c is paid 60 against a deficit of 30 and payee d nothing against 30 |
| PayoutFindings.FirstPayer | screfinery/stores/mining_session_store.py:191-204 | as written, payer a pays c 30, is exhausted and records 0 for d; c's balance grows to 60 |
| PayoutFindings.SecondPayer | screfinery/stores/mining_session_store.py:191-204 | as written, payer b pays c again, whose balance is now 60, its whole 30, and records 0 for d |
| PayoutFindings.SessionSettlement | screfinery/stores/mining_session_store.py:168-187 | the example session has members a, b, c, d, average 30, payers a then b, payees c then d, each 30 from the average |
| PayoutFindings.PayPayeesSettled | screfinery/stores/mining_session_store.py:191-204 | the inner loop with `-=` on line 198 keeps the key sets of both balance dicts |
| PayoutFindings.PayPayeesSettledBounded | screfinery/stores/mining_session_store.py:191-204 | with `-=`, every amount is at least 0 and the payer pays at most its surplus. Each payee's balance falls by what it is paid and never below 0. The payer ends with money left only if every payee is paid in full |
| PayoutFindings.SettleSettledBounded | screfinery/stores/mining_session_store.py:188-204 | with `-=`, over all payers, every group belongs to a payer and pays at most its surplus. No balance goes below 0, no payee gets more than its deficit, and at the end no payer has money left while a payee is still owed |
| PayoutFindings.SettledSessionBounded | screfinery/stores/mining_session_store.py:176-204 | the intended settlement of a session's own payers and payees has the guarantees of SettleSettledBounded |
| PayoutFindings.SettledPayees | screfinery/stores/mining_session_store.py:198 | with `-=`, the example session pays c exactly 30 and d exactly 30, their deficits |
| PayoutFindings.IntendedSummaryReported | screfinery/stores/mining_session_store.py:162-166 | the intended summary always succeeds: without entries, zero totals and empty `user_profits` and payouts; with entries, the same `user_profits` as the calculator |
| Sorting.SortBy | screfinery/stores/mining_session_store.py:186-187 | `sorted` returns a permutation of its input |
| Sorting.SortByCorrect | screfinery/stores/mining_session_store.py:186-221 | `sorted` is ordered, a permutation, and stable: equivalent elements keep their input order |
| Collections.Distinct | screfinery/stores/mining_session_store.py:171 | the keys of a dict built from a list: every element once, nothing else, no duplicates |
| Collections.DistinctFirstAppearance | screfinery/basestore.py:11-16 | dict keys appear in order of their first insertion |
| Collections.DictFromPairs | screfinery/util.py:24 | `dict(pairs)` has the distinct keys of the pairs, in first-appearance order |
| Collections.DictFromPairsLookup | screfinery/util.py:24 | in `dict(pairs)`, each key maps to the value of its last pair, and a key with no pair is absent |
| Collections.DictFromPairsDistinct | screfinery/stores/mining_session_store.py:188 | `dict(items)` of items with distinct keys holds exactly those items, in order |
| Strings.Split | screfinery/util.py:17 | `str.split(sep)` gives at least one piece and no piece contains the separator |
| Strings.JoinSplit | screfinery/util.py:17 | joining the pieces of a split with the separator gives the text back |
| Strings.SplitJoin | screfinery/util.py:17 | splitting separator-free pieces joined by the separator gives the pieces back |
| Strings.SplitOnce | screfinery/util.py:21 | `split(sep, maxsplit=1)` gives the whole text when `sep` is absent, and otherwise the text before and after its first occurrence |
| Strings.SplitTrailing | screfinery/util.py:39 | text ending in the separator splits with an empty last piece |
| Strings.Strip | screfinery/util.py:38 | `str.strip()` gives the substring `s[i..j]` with only white space before `i` and after `j`, and no white space at either of its own ends |
| Strings.StrLessTotal | screfinery/stores/mining_session_store.py:221 | string order is total on distinct strings (and irreflexive and transitive, by StrLessIrreflexive and StrLessTransitive), so sorting by payer name is well defined |
| Values.Dict.Pop | screfinery/validation.py:18-20 | `d.pop(key, None)` removes the key if present and changes nothing else |
| Values.Dict.Set | screfinery/storage/user.py:183 | `d[key] = value` sets one key and changes nothing else |
| RowGrouping.InitGroup | screfinery/basestore.py:20-26 | `group_init` adds exactly the listed columns to the group, takes their values from the row (overwriting earlier ones), and keeps every other key |
| RowGrouping.ApplyGrouping | screfinery/basestore.py:30-54 | each closure writes only its own group key and keeps every other key |
| RowGrouping.ApplyAllKeys | screfinery/basestore.py:14-15 | the closures in turn add their group keys and keep every other key |
| RowGrouping.ApplyAllAt | screfinery/basestore.py:14-15 | with distinct group keys, each closure's key ends up as that closure alone left it |
| RowGrouping.PresentValues | screfinery/basestore.py:30-37 | the collected scalars are never None and are at most one per row |
| RowGrouping.GroupShape | screfinery/basestore.py:20-26 | every group holds exactly the copied columns and the closures' keys; a copied column no closure writes holds its value in the group's last row |
| RowGrouping.ScalarList | screfinery/basestore.py:30-37 | a `group_rel_many_scalar` key always holds a list, empty when every value was None, of the non-None values of its column in row order, duplicates kept |
| RowGrouping.ManyList | screfinery/basestore.py:47-54 | a `group_rel_many` key always holds a list with one sub-dict (None values kept) per row whose listed columns are not all None |
| RowGrouping.OneFromLastRow | screfinery/basestore.py:40-44 | a `group_rel_one` key holds the non-None listed columns of the group's last row |
| RowGrouping.Grouped | screfinery/basestore.py:9-17 | no more groups than rows, and no groups exactly when there are no rows |
| RowGrouping.GroupsByFirstAppearance | screfinery/basestore.py:9-17 | one group per distinct row id, in order of each id's first row; no more groups than rows; every row's id has a group; each group is folded from exactly the rows with its id |
| RowGrouping.GroupTable.Init | screfinery/basestore.py:21-26 | `setdefault(...).update(...)`: appends the row id to the ordered keys if it is new, and replaces its group by `group_init`'s result |
| RowGrouping.GroupTable.ApplyEach | screfinery/basestore.py:14-15 | the closures update the row's group and nothing else |
| RowGrouping.GroupTable.Add | screfinery/basestore.py:13-15 | one loop iteration: the id is added on first appearance, and only that id's group changes, by one `Step` |
| RowGrouping.GroupTable.Values | screfinery/basestore.py:16 | `list(groups.values())` lists the groups in key order |
| RowGrouping.GroupRows | screfinery/basestore.py:9-17 | the loop over the rows returns exactly `Grouped`, the groups of the distinct ids in first-appearance order |
| RowGrouping.TracksNext | screfinery/basestore.py:12-15 | one more row keeps the table equal to the groups of the rows seen so far |
| RowGrouping.RowsWithIdEmpty | screfinery/basestore.py:11-13 | an id has rows exactly when it is among the group ids |
| Util.First | screfinery/util.py:27-28 | the first element, or the default for an empty sequence |
| Util.ItemPair | screfinery/util.py:21-22 | an item splits at its first `:` only: the key has no `:`; the value is None exactly when the item has no `:`, and then the key is the whole item |
| Util.ParseDictStr | screfinery/util.py:13-24 | None or empty text gives an empty dict; otherwise the keys are those of the `;` items, each once, in order of first appearance |
| Util.ParseDictStrLookup | screfinery/util.py:24 | a repeated key takes the value of its last item |
| Util.ItemPairFormatItem | screfinery/util.py:21-22 | an item written from a key without `:` reads back as the same pair |
| Util.ParseFormatDictStr | screfinery/util.py:13-24 | every non-empty dict whose keys are distinct and hold neither separator, and whose values hold no item separator, reads back from its `k:v;k:v` text (except the lone empty key without value, whose text is empty) |
| Util.CookiePieces | screfinery/util.py:38-39 | one piece per `;`-separated part, each stripped |
| Util.CookiePairs | screfinery/util.py:37-39 | fails if and only if some piece has no `=`, naming the first such piece; otherwise each piece split at its first `=` |
| Util.ParseCookieHeader | screfinery/util.py:31-40 | None gives an empty dict; otherwise the error of the first piece without `=`, or the pairs keyed in first-appearance order |
| Util.ParseCookieHeaderLookup | screfinery/util.py:37-40 | a cookie named in several pieces takes the value of its last piece; an unnamed one is absent |
| Util.TrailingSemicolonRejected | screfinery/util.py:37-39 | a header ending in `;` is refused: its empty last piece has no `=` |
| Util.GlobMatch | screfinery/util.py:50-52 | a pattern without `*` matches only names of its own length |
| Util.GlobLiteral | screfinery/util.py:50 | a pattern without wildcards matches only itself |
| Util.GlobStar | screfinery/util.py:50 | `*` matches every name |
| Util.GlobPrefixStar | screfinery/util.py:50 | `prefix*` matches exactly the names starting with `prefix` |
| Util.GlobStarSuffix | screfinery/util.py:50 | `*suffix` matches exactly the names ending with `suffix` |
| Util.IsAuthorized | screfinery/util.py:48-52 | authorized if and only if some granted scope glob-matches the required scope |
| Util.NoScopesDenied | screfinery/util.py:48-52 | an empty scope list authorizes nothing |
| Util.StarGrantsAll | screfinery/main.py:14-16 | the scope `*` grants every action on every resource |
| Util.ResourceWildcard | screfinery/main.py:14-16 | `<resource>.*` grants exactly the scopes starting with `<resource>.` |
| Util.ActionWildcard | screfinery/main.py:14-16 | `*.<action>` grants exactly the scopes ending with `.<action>` |
| Util.DecimalString | screfinery/util.py:89 | `str(n)` of a list index is non-empty, made of digits and `-`, and never contains `/` |
| Util.ErrorPath | screfinery/util.py:89 | the path starts with `/`, and is just `/` when the location has at most one element |
| Util.FormatValidationErrors | screfinery/util.py:83-94 | one reshaped error per error, in order, keeping message and type and turning the location into a path |
| Util.ErrorPathSplits | screfinery/util.py:89 | the path after its leading `/` splits back into the texts of all location elements but the first (the model name is dropped) |
| Validation.SchemaValidate | screfinery/validation.py:7-10 | passes exactly when the validator reports no error, and otherwise fails with "<resource_name> data not valid" and the full error list |
| Validation.Stripped | screfinery/validation.py:18-20 | the request without `created`, `updated` and `id`, every other key and value unchanged |
| Validation.StrippedIdempotent | screfinery/validation.py:18-20 | stripping twice strips nothing more |
| Validation.StrippedSplitsData | screfinery/validation.py:18-20 | the stripped request and the managed keys it lost together make up the request |
| Validation.ResourceValidator.Check | screfinery/validation.py:15-17 | no validator registered for the case means no check; otherwise `schema_validate` with the registered validator |
| Validation.ResourceValidator.Validate | screfinery/validation.py:13-22 | a failed check raises with the dict untouched; otherwise the same dict is returned with the managed keys popped (absent ones are no error) |
| UserPassword.WithHash | screfinery/storage/user.py:181-183 | after the rewrite, both passwords are gone, `password_hash` is set, and every other key is unchanged |
| UserPassword.UserValidatePassword | screfinery/storage/user.py:144-183 | raises with the dict untouched, or rewrites it in place to the checked contents |
| UserPassword.PasswordChecked | screfinery/storage/user.py:145-180 | a refusal carries one error detail repeating its message; an accepted request holds neither password |
| UserPassword.PasswordAccepted | screfinery/storage/user.py:145-180 | accepted if and only if both passwords or neither are present and, when both, their hashes agree |
| UserPassword.PasswordErrors | screfinery/storage/user.py:145-180 | a refusal carries one detail repeating its message; its path is `$.password` exactly when `password` is missing, else `$.password_confirm` |
| UserPassword.PasswordStored | screfinery/storage/user.py:168-183 | an accepted request carries neither password. It holds `password_hash`, the hash of `password`, when a password was given, and is unchanged when none was. Every other key keeps its value |
| UserPassword.PasswordCheckIdempotent | screfinery/storage/user.py:144-183 | checking an accepted request again changes nothing |
| GoogleSignin.CsrfCheck | screfinery/google_signin.py:28-34 | passes if and only if the cookie token is non-empty and equal to the form token. Otherwise the three refusals come in the source's order: no cookie, then no form token, then a mismatch |

## Left out

- Database access, SQL building (`BaseStore` methods, the stores, `sa_filter_from_dict`, `sa_order_by_from_dict`), web routing, sessions and `hash_password` are I/O or foreign code. The password hash is a function parameter of the password check.
- `is_user_authorized` only reads the user's scopes from the database and calls `is_authorized`, which is modelled.
- `optint` relies on the parsing rules of Python's `int()`. It is not part of this model.
- Validators from jsonschema and pydantic are foreign libraries. `schema_validate` takes the validator as a function from the data to its error list. The duplicate `_resource_validator` in `screfinery/storage.py` is not part of this model.
- The `config` argument of `resource_validator` is never read, so `Validation.ResourceValidator.Validate` has no such parameter.
- Floating point:
  - Profits are exact reals.
  - The float-to-`Decimal` conversions, the 28-digit `Decimal` context of the division, and the `round(value, 2)` fallback of `_round` are not modelled.
  - Output amounts are `real` values in whole cents, not `float`.
- Payout.CalcPayoutSummary: an entry of a user who is not a member raises `KeyError` in the source; here it is a precondition (`EntriesByMembers`).
- Payout.CalcPayoutSummary: the response is a value, not a pydantic model. The schema's check that `user_profits` is present is modelled by `NewPayoutSummary`, and its other field checks are not.
- Payout.PayPayees: its own contract states only that the balance dicts keep their keys; what a run does is stated by `Payout.PayPayer` and `PayoutProperties.PayPayeesAsWritten`.
- Payout.Settle: its own contract states only that the balance dicts keep their keys; what the settlement does is stated by `Payout.PayAll` and `PayoutProperties.SettleAsWritten`.
- Payout.Recorded: its own contract states only the length; the rounding and order of the reported amounts are stated by `PayoutProperties.PayoutItemsInOrder`.
- PayoutFindings.PayPayeesSettled: its own contract states only that the balance dicts keep their keys; what the intended run does is stated by `PayoutFindings.PayPayeesSettledBounded`.
- RowGrouping.GroupRows: a row missing a column that a closure reads raises `KeyError` in the source; here it is a precondition (`Readable`).
- RowGrouping: the id and grouping functions are values chosen by the caller (`GroupInit`, `Grouping`), not arbitrary Python callables. Key order inside a group dict or a sub-dict is not modelled, because a group is a `map`.
- RowGrouping.GroupRows: requires `WellFormed`, each closure writing a group key of its own that `group_init` does not copy, as the one call site (screfinery/storage/method.py:19-22) does. Without it a group key could already hold a non-list: Python keeps it on a row whose value is None and raises `AttributeError` on `.append` otherwise, while `ApplyGrouping` replaces it with a list. The per-key lemmas assume `WellFormed` too.
- RowGrouping: row ids are compared as `Value`s. Python dict keys also identify `1`, `1.0` and `True`; the ids are database integers, so this does not arise.
- Util.GlobMatch: models only the wildcards `*` and `?`. `fnmatch` character classes `[...]` and the case folding of `os.path.normcase` are left out, because no scope in the service uses them.
- Util.ParseDictStr: the separators are single characters, as at every call site (the defaults `;` and `:`).
- Values.Dict: a `map`, so the insertion order of the request dict is not modelled; nothing in the modelled code reads that order.
- Strings.Strip: white space is the ASCII and Latin-1 white space; the other Unicode space characters are not modelled.
- Util.ErrorPath: the text of a location element is the field name itself or the decimal form of an index; other `str()` forms do not occur in pydantic locations.

## Findings

| source | as written | input that shows it | evidently intended | confidence | as-written member | corrected member |
|---|---|---|---|---|---|---|
| screfinery/stores/mining_session_store.py:198 | `user_under_avg[user_under] += amount` credits the payee's running balance with what it was just paid, so the balance never falls and every later payer pays it again | members a, b, c, d; entries a 60, b 60 (average 30): c is paid 60 against a deficit of 30, d nothing against 30 | `-=`: a payee's balance falls by what it is paid, so no payee receives more than its deficit and no payer stops with money left while a payee is owed | not executed | PayoutFindings.OverpaidPayee | PayoutFindings.SettleSettledBounded |
| screfinery/stores/mining_session_store.py:162-166 | a session without entries builds `MiningSessionPayoutSummary` without `user_profits`, which screfinery/schema.py:391 declares required without a default, so it is refused instead of reported | any session with no entries | report the empty session with `user_profits=[]` | not executed | PayoutProperties.EmptySessionRejected | PayoutFindings.IntendedSummaryReported |
