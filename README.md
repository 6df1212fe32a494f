# Account dashboard core, modelled in Dafny

This project models the deterministic logic of an LLM-gateway account site.

- **Usage aggregation:** the dashboard's data hook folds a user's usage-log rows into three things:
  - this month's token and request totals;
  - the list of models used;
  - a newest-first billing history with one record per calendar month.
- **API keys:** the hook lists a user's API keys and soft-deletes them. A delete only marks the row revoked.
- **Dashboard page:** it shows the free-tier allowance, any overage and the account type. It draws a progress bar, masks key prefixes and refuses blank key names.
- **Toast list:** a small queue of notifications, which `toast` appends to and `dismiss` and a timer filter by id.
- **Gateway configuration:** each setting is read with a `||` default, and the upstream list is parsed from a comma-separated string.

Modules, one per concern:

- `Wrappers`: `Option`.
- `Seqs`: JavaScript's `filter`, `map`, `reduce` with `+`, and `[...new Set(xs)]`.
- `Sorting`: a stable newest-first sort by an integer key.
- `JsStrings`: `trim`, `split`, `join`, `String(n)`, `padStart` and `repeat`.
- `Dates`: calendar dates as (year, month, day) triples, with the `Date` normalisations the code relies on.
- `UsageAggregation`, `ApiKeys`, `Dashboard`, `Toasts`, `Env`: the core itself.

Modelling choices:

- **The `monthlyBilling` dictionary** is a map from months to records, plus the list of keys in insertion order. That order is the order `Object.values` walks.
- **The `forEach` loop** is the method `GroupByMonth`. It is proved equal to the function `Group`, and the properties are proved about `Group`.
- **The hook's toast state** is the class `ToastList`, with one method per update.
- **Store queries** (`.eq`, `.gte`, `.order`, `.update`) are functions over an in-memory table.
- **Values the code takes from outside** are parameters:
  - the clock;
  - random key material;
  - ids and timestamps chosen by the store.

## Model

| member | source | states |
|---|---|---|
| UsageAggregation.MonthKeyFormat | src/hooks/useSupabaseData.ts:147 | The month key is the year in decimal, then `-`, then the month number left-padded with `0` to two digits |
| UsageAggregation.MonthKey | src/hooks/useSupabaseData.ts:147 | The key is the year's decimal form, a `-`, and two decimal digits whose value is the month number |
| UsageAggregation.TwoDigitsPadded | src/hooks/useSupabaseData.ts:147 | The two month digits are `String(month).padStart(2, '0')` |
| UsageAggregation.TotalTokens | src/hooks/useSupabaseData.ts:169-171 | The `reduce` total is at least each log's prompt plus completion tokens, and is 0 exactly when every log has none |
| UsageAggregation.MonthKeyInjective | src/hooks/useSupabaseData.ts:147 | Two (year, month) pairs get the same key exactly when they are the same pair |
| UsageAggregation.NewBucket | src/hooks/useSupabaseData.ts:149-161 | A new bucket belongs to the log's month. It spans that month, holds 0 tokens and is `paid` |
| UsageAggregation.AddLog | src/hooks/useSupabaseData.ts:145-166 | One step of the loop. It creates a bucket only when the log's month has none, appending its key last. It leaves every other month's bucket unchanged. It adds the log's prompt plus completion tokens to its own month's bucket, so an existing bucket is never reset |
| UsageAggregation.Group | src/hooks/useSupabaseData.ts:145-166 | Every key the grouping lists has an entry, so `Object.values` is defined on it |
| UsageAggregation.GroupByMonth | src/hooks/useSupabaseData.ts:143-166 | The imperative loop over the logs ends with the same dictionary and key order as `Group` |
| UsageAggregation.AddLogValid | src/hooks/useSupabaseData.ts:149-165 | One step keeps the dictionary well formed: keys are distinct and in step with the entries, and each entry is its own month's bucket |
| UsageAggregation.GroupValid | src/hooks/useSupabaseData.ts:145-166 | The whole grouping is well formed in that sense |
| UsageAggregation.GroupKeys | src/hooks/useSupabaseData.ts:147-149 | A month has a bucket exactly when some log falls in it |
| UsageAggregation.MonthHasBucket | src/hooks/useSupabaseData.ts:149-161 | A month has a bucket exactly when the logs filtered to that month are not empty |
| UsageAggregation.GroupTokens | src/hooks/useSupabaseData.ts:165 | Each month's bucket holds exactly that month's log tokens. A month with no bucket has no such tokens |
| UsageAggregation.GroupBucketPeriod | src/hooks/useSupabaseData.ts:150-160 | The bucket of a log's month has the month key as its id and is `paid`. Its date and `period_start` are day 1 of the month; its `period_end` is the month's last day, with February 29 in leap years |
| UsageAggregation.ReplaceBucketTokens | src/hooks/useSupabaseData.ts:165 | Updating an existing bucket changes the total by the difference |
| UsageAggregation.AppendBucketTokens | src/hooks/useSupabaseData.ts:153-161 | Adding a new bucket adds its tokens to the total |
| UsageAggregation.AddLogConservesTokens | src/hooks/useSupabaseData.ts:145-166 | One step adds exactly the log's tokens to the sum over all buckets |
| UsageAggregation.GroupConservesTokens | src/hooks/useSupabaseData.ts:145-166 | The buckets together hold exactly the tokens of all the logs |
| UsageAggregation.Values | src/hooks/useSupabaseData.ts:184 | `Object.values` lists one record per key, in key order |
| UsageAggregation.ValuesDistinctTimes | src/hooks/useSupabaseData.ts:184-186 | Distinct month buckets have distinct sort keys |
| UsageAggregation.HistoryNewestFirst | src/hooks/useSupabaseData.ts:184-186 | The billing history is strictly newest first by month start |
| UsageAggregation.ReorderedValuesAreBuckets | src/hooks/useSupabaseData.ts:184-186 | Any reordering of the values holds only the grouping's buckets, each under its own month |
| UsageAggregation.ReorderedValuesHaveEveryBucket | src/hooks/useSupabaseData.ts:184-186 | Any reordering of the values holds every bucket |
| UsageAggregation.HistoryRecordsAreBuckets | src/hooks/useSupabaseData.ts:184-186 | Every history record is the bucket of its own month |
| UsageAggregation.HistoryHasEveryBucket | src/hooks/useSupabaseData.ts:184-186 | Every month bucket appears in the history |
| UsageAggregation.HistoryKeysDistinct | src/hooks/useSupabaseData.ts:153-154 | No two history records carry the same `YYYY-MM` id, so there is exactly one record per month key |
| UsageAggregation.HistoryConservesTokens | src/hooks/useSupabaseData.ts:184-186 | The history's token counts add up to the tokens of all the billing logs |
| UsageAggregation.History | src/hooks/useSupabaseData.ts:184-186 | The history is a reordering of the grouping's records, ordered by non-increasing month start |
| UsageAggregation.ModelNames | src/hooks/useSupabaseData.ts:175-177 | The mapped-and-filtered names are exactly the present, non-empty model names of the logs |
| UsageAggregation.UniqueModels | src/hooks/useSupabaseData.ts:175-177 | `modelsUsed` lists every present, non-empty model name once, with no duplicates and no empty or missing entry |
| UsageAggregation.LogsSince | src/hooks/useSupabaseData.ts:116-125 | The query returns rows of the table that belong to the user and are dated on or after the start date, and every such row |
| UsageAggregation.BillingLogs | src/hooks/useSupabaseData.ts:133-138 | The billing query returns the same rows as `LogsSince`, ordered newest first by `created_at` |
| UsageAggregation.Summarize | src/hooks/useSupabaseData.ts:168-187 | The request count is the number of this month's logs and the token total is theirs. The models are exactly `UniqueModels` of this month's logs, so distinct and complete. The history is exactly `History` of the billing logs: one record per month, strictly newest first, with tokens adding up to the billing logs' tokens |
| UsageAggregation.FetchUsageData | src/hooks/useSupabaseData.ts:108-188 | Without a user it returns nothing. Otherwise it returns the totals, request count and models of the logs since the first of the month, plus the history built from the billing-window logs |
| UsageAggregation.InCurrentMonth | src/hooks/useSupabaseData.ts:112-114 | For a date no later than today, being on or after the first of the month means being in today's month |
| UsageAggregation.CurrentMonthLogs | src/hooks/useSupabaseData.ts:116-138 | When the billing window reaches back to the first of the month, the window's current-month logs are this month's logs, up to order |
| UsageAggregation.CurrentMonthBucketMatchesTotals | src/hooks/useSupabaseData.ts:145-182 | Under the same assumption, the history has a current-month bucket exactly when there were requests this month, and that bucket holds `tokensThisMonth` |
| Dates.DaysInMonth | src/hooks/useSupabaseData.ts:151 | A month has 28 to 31 days, and February has 29 exactly in leap years |
| Dates.OrdinalOrder | src/hooks/useSupabaseData.ts:184-186 | The sort key orders dates by (year, month, day) and tells distinct dates apart |
| Dates.MonthStart | src/hooks/useSupabaseData.ts:150 | `new Date(y, m - 1, 1)` is day 1 of that month |
| Dates.NextMonthStart | src/hooks/useSupabaseData.ts:151 | Month index 12 rolls over into January of the next year |
| Dates.PreviousDay | src/hooks/useSupabaseData.ts:151 | Day 0 is a date before the given one |
| Dates.PreviousDayIsAdjacent | src/hooks/useSupabaseData.ts:151 | No date lies strictly between day 0 and day 1 |
| Dates.MonthEnd | src/hooks/useSupabaseData.ts:151 | `new Date(y, m, 0)` is the last day of month `m` |
| Dates.MonthEndIsLast | src/hooks/useSupabaseData.ts:150-151 | Every date of the month lies between `period_start` and `period_end` |
| Sorting.SortDesc | src/hooks/useSupabaseData.ts:184-186 | The sort returns a permutation of its input, ordered by non-increasing key |
| Sorting.SortDescDistinct | src/hooks/useSupabaseData.ts:184-186 | With distinct keys, the sorted order is strict |
| ApiKeys.ListKeys | src/hooks/useSupabaseData.ts:92-97 | The listing is a permutation of the user's non-revoked rows, newest first |
| ApiKeys.ListKeysMember | src/hooks/useSupabaseData.ts:95-96 | A key is listed exactly when it is in the table, owned by the user and not revoked |
| ApiKeys.FetchApiKeys | src/hooks/useSupabaseData.ts:88-100 | Without a user nothing is fetched; otherwise the listing is returned |
| ApiKeys.Revoke | src/hooks/useSupabaseData.ts:247-251 | The update removes no row and changes no field but `revoked`. A row becomes revoked only if it already was, or its id and owner both match |
| ApiKeys.RevokeIdempotent | src/hooks/useSupabaseData.ts:249-251 | Revoking twice is revoking once |
| ApiKeys.RevokeWithoutUser | src/hooks/useSupabaseData.ts:251 | Without a signed-in user the update changes nothing |
| ApiKeys.ListAfterRevoke | src/hooks/useSupabaseData.ts:249-255 | After the delete, the user's listing holds exactly the keys it held before except the deleted id |
| ApiKeys.RevokedKeyNotListed | src/hooks/useSupabaseData.ts:249-255 | The deleted key is not listed afterwards, and every listed key is a live key of the user |
| ApiKeys.RevokeOtherUserUnaffected | src/hooks/useSupabaseData.ts:250-251 | A delete by another user leaves this user's listing identical, order included |
| ApiKeys.DeleteApiKey | src/hooks/useSupabaseData.ts:245-256 | The new table is the old one with the user's row of that id revoked, so it keeps its size. The refreshed listing is `fetchApiKeys` on the new table: present only with a user, and holding only that user's live keys, none with the deleted id |
| ApiKeys.DeleteRefreshesListing | src/hooks/useSupabaseData.ts:245-254 | With a user, the refreshed listing is newest first and holds exactly the keys of the old listing other than the deleted id |
| ApiKeys.NewKey | src/hooks/useSupabaseData.ts:221-228 | The inserted row carries the user, name, prefix and hash passed to the insert. The columns the insert omits take the store defaults: not revoked, no expiry, never used. So the row is live for its user |
| ApiKeys.CreateApiKey | src/hooks/useSupabaseData.ts:213-230 | Without a user nothing is inserted. Otherwise exactly one row is appended, with the user, name, prefix and hash given, and not revoked |
| ApiKeys.CreatedKeyListed | src/hooks/useSupabaseData.ts:221-234 | A newly created key appears in its owner's refreshed listing |
| Dashboard.FreeTierRemaining | src/pages/Dashboard.tsx:342 | The remaining allowance is at most 1,000,000 and never negative. It is 0 exactly when tokens reach 1,000,000, and below that tokens plus remaining is 1,000,000 |
| Dashboard.RemainingShrinks | src/pages/Dashboard.tsx:446 | More usage never leaves more allowance, and below the limit it shrinks by exactly the extra usage |
| Dashboard.OverageTokens | src/pages/Dashboard.tsx:352-357 | The overage row appears exactly when tokens exceed 1,000,000, and its value is then positive and equals tokens minus 1,000,000 |
| Dashboard.AccountTypeOf | src/pages/Dashboard.tsx:349 | The account is pay-as-you-go exactly when the month's tokens exceed 1,000,000, and free tier otherwise |
| Dashboard.AccountTypeLabel | src/pages/Dashboard.tsx:349 | Pay-as-you-go is labelled `Pay-as-you-go` and the free tier `Free Tier`, and neither label is the other's |
| Dashboard.UsedPercent | src/pages/Dashboard.tsx:436 | The used share is non-negative, at most 100 exactly within the allowance, and proportional to tokens |
| Dashboard.ProgressWidth | src/pages/Dashboard.tsx:442 | The bar width lies between 0 and 100. It is 100 at or past the limit and equals the used share within it |
| Dashboard.ProgressGrows | src/pages/Dashboard.tsx:442 | The bar never shrinks as usage grows |
| Dashboard.FreeTierPanelFor | src/pages/Dashboard.tsx:430-447 | The free-tier panel appears exactly when tokens are at most 1,000,000. Its used-share sentence appears exactly when tokens are positive; its value is the share `(tokens / 1000000) * 100`. The bar is that same share, which within the allowance is at most 100. The remaining figure complements tokens |
| Dashboard.OverageOrFreeTier | src/pages/Dashboard.tsx:349-357 | Exactly one of the overage row and the free-tier panel is shown, and the account type is "Pay-as-you-go" exactly when it is the overage row |
| Dashboard.MaskedKey | src/pages/Dashboard.tsx:274 | A shown key renders as its `key_prefix`, a hidden one as exactly 32 `•` characters |
| Dashboard.HiddenKeysLookAlike | src/pages/Dashboard.tsx:274 | Hidden keys all render identically |
| Dashboard.HandleCreateApiKey | src/pages/Dashboard.tsx:26-48 | A name that trims to empty raises the error toast and leaves the table and the field alone. Otherwise, with a user, exactly one key is created with the trimmed name, the success toast is raised and the field is cleared |
| Dashboard.BlankNameRejected | src/pages/Dashboard.tsx:27-34 | The error toast is raised exactly for names made only of whitespace, and then nothing is created |
| Dashboard.CreatedThroughFormListed | src/pages/Dashboard.tsx:37 | A key created through the form is listed under the trimmed name |
| JsStrings.Trim | src/pages/Dashboard.tsx:27 | `trim` returns a contiguous slice of its input with no whitespace at either end |
| JsStrings.TrimEmpty | src/pages/Dashboard.tsx:27 | A string trims to empty exactly when every character is whitespace |
| JsStrings.TrimIdempotent | api/src/env.ts:6 | Trimming twice is trimming once |
| JsStrings.Split | api/src/env.ts:6 | `split(",")` yields one more piece than there are commas, and no piece contains a comma |
| JsStrings.JoinSplit | api/src/env.ts:6 | Joining the pieces with the separator gives back the input |
| JsStrings.SplitJoin | api/src/env.ts:6 | Splitting a join of separator-free pieces gives back the pieces |
| JsStrings.SplitConcat | api/src/env.ts:6 | Text on either side of a separator splits independently, left before right |
| JsStrings.DecimalRoundTrip | api/src/env.ts:2 | Reading back the decimal digits of a number gives the number |
| JsStrings.IntToDecimalInjective | src/hooks/useSupabaseData.ts:147 | Distinct years print differently |
| JsStrings.PadStart | src/hooks/useSupabaseData.ts:147 | `padStart` fills on the left up to the width and keeps the string as its suffix |
| JsStrings.Repeat | src/pages/Dashboard.tsx:274 | `repeat(n)` on a one-character string gives exactly `n` copies |
| Seqs.Filter | src/hooks/useToast.ts:23 | `filter` keeps exactly the elements that pass, and never adds any |
| Seqs.FilterIndices | src/hooks/useToast.ts:23 | The kept elements sit at strictly increasing positions of the input, so their relative order is kept |
| Seqs.FilterConcat | api/src/env.ts:6 | Filtering commutes with concatenation |
| Seqs.SumPermutation | src/hooks/useSupabaseData.ts:169-171 | A `reduce` with `+` does not depend on the order of its input |
| Seqs.SumBounds | src/hooks/useSupabaseData.ts:169-171 | Each term is at most the sum, and the sum is 0 exactly when every term is 0 |
| Seqs.Dedup | src/hooks/useSupabaseData.ts:175 | `[...new Set(xs)]` holds every element of `xs` once and nothing else. Its order is stated by `DedupFirstOccurrenceOrder` |
| Seqs.DedupFirstOccurrenceOrder | src/hooks/useSupabaseData.ts:175 | `[...new Set(xs)]` lists elements in the order of their first occurrences in `xs` |
| Toasts.VariantOrDefault | src/hooks/useToast.ts:13 | An omitted variant is `'default'`, and a given one is kept |
| Toasts.MakeToast | src/hooks/useToast.ts:13-15 | The new toast carries the given title and description, the defaulted variant and the stamped id |
| Toasts.ToastList.constructor | src/hooks/useToast.ts:11 | The list starts empty |
| Toasts.ToastList.Show | src/hooks/useToast.ts:13-15 | `toast` appends exactly one entry, with id `Date.now().toString()`. Earlier entries are unchanged and keep their order |
| Toasts.ToastList.Dismiss | src/hooks/useToast.ts:22-24 | `dismiss` replaces the list by its entries with other ids |
| Toasts.ToastList.Expire | src/hooks/useToast.ts:17-19 | The timer performs exactly the list change `dismiss` does for the toast's id |
| Toasts.WithoutId | src/hooks/useToast.ts:23 | No entry with the dismissed id remains |
| Toasts.WithoutIdMember | src/hooks/useToast.ts:23 | An entry survives exactly when it was present and has another id |
| Toasts.WithoutIdConcat | src/hooks/useToast.ts:23 | Removal keeps the relative order of the remaining entries |
| Toasts.WithoutIdIdempotent | src/hooks/useToast.ts:23 | Dismissing an id twice is dismissing it once |
| Toasts.WithoutAbsentId | src/hooks/useToast.ts:23 | Dismissing an id no entry carries leaves the list unchanged |
| Toasts.ExpiryUndoesToast | src/hooks/useToast.ts:14-19 | The timer of a toast with a fresh id restores the list exactly as it was before the toast |
| Toasts.SameMillisecondToastsExpireTogether | src/hooks/useToast.ts:14-18 | Two toasts shown in the same millisecond share an id, so the first one's timer removes the second as well |
| Env.Lookup | api/src/env.ts:2-9 | A variable reads as present exactly when it is set, with its value |
| Env.OrDefault | api/src/env.ts:3 | The logical-or default takes the value when it is set and non-empty, and the fallback otherwise |
| Env.UpstreamList | api/src/env.ts:6 | Every upstream is non-empty with no whitespace at either end, and there are at most one more than the commas |
| Env.UpstreamListConcat | api/src/env.ts:6 | The upstreams keep the left-to-right order of the comma-separated input |
| Env.UpstreamListSingle | api/src/env.ts:6 | Input without a comma gives its trimmed self, or nothing if that is empty |
| Env.UpstreamListSeparatorsOnly | api/src/env.ts:6 | Input made only of commas and whitespace gives no upstream |
| Env.ParseUpstreams | api/src/env.ts:6 | A non-empty `UPSTREAMS` is parsed as given |
| Env.DefaultUpstreams | api/src/env.ts:6 | An unset or empty `UPSTREAMS` gives exactly `["http://127.0.0.1:8000/v1"]` |
| Env.NoDefaultForSeparators | api/src/env.ts:6 | A non-empty `UPSTREAMS` of only commas and whitespace gives the empty list; the default is not applied |
| Env.PortSetting | api/src/env.ts:2 | `PORT` is 8787 when unset or empty. Text that is not all digits is handed to `Number` |
| Env.PortRoundTrip | api/src/env.ts:2 | A port written in decimal reads as that port |
| Env.Load | api/src/env.ts:1-10 | `NODE_ENV`, `STRIPE_SECRET_KEY`, `UPSTREAM_HMAC_KEY` and `CORS_ORIGIN` take the given value when set and non-empty, and otherwise `"development"`, `""`, `""` and `"*"`. `PORT` is read by `PortSetting`. The Supabase settings are the variables' values as set, possibly absent. The upstreams are `ParseUpstreams` of `UPSTREAMS`, which is the parsed value itself when set and non-empty. No upstream is empty |
| Env.LoadEmptyEnvironment | api/src/env.ts:1-10 | With nothing set, every defaulted setting takes its default and the Supabase settings are absent |
| Env.EmptyIsUnset | api/src/env.ts:2-9 | For `PORT`, `NODE_ENV`, `STRIPE_SECRET_KEY`, `UPSTREAM_HMAC_KEY` and `CORS_ORIGIN`, setting the variable to the empty string is the same as leaving it unset |
| Env.EmptyUpstreamsIsUnset | api/src/env.ts:6 | The same holds for `UPSTREAMS` |
| Env.SupabaseUrlNotDefaulted | api/src/env.ts:4 | `SUPABASE_URL` has no default: an empty value stays empty, and an unset one is absent |

## Left out

- Dashboard.UsedPercent, Dashboard.ProgressWidth: the share `(tokens / 1000000) * 100` is an exact real. IEEE double rounding is not modelled, so the exact proportionality in `UsedPercent` holds only up to rounding in JavaScript. The cap, the bounds and monotonicity survive rounding, because rounding is monotone and 100 and 0 are exact.
- Money: the floating-point `cost` sums (`amount`, `costThisMonth`) and `parseFloat` are not modelled. Neither are `formatCurrency`, `formatNumber` and `toFixed(1)`.
- Time:
  - Timestamps are calendar dates, ordered by an order-preserving ordinal rather than by milliseconds. Time zones and `toISOString` are not modelled.
  - How `sixMonthsAgo` is computed with `setMonth` is not modelled. The billing window's start date is a parameter.
  - `Date.now()` is the parameter `now` of `Toasts.ToastList.Show`.
  - `setTimeout` scheduling is not modelled. `Toasts.ToastList.Expire` is the timer's callback, called by whoever models time.
- Randomness and store choices: the `Math.random` key prefix and hash of `createApiKey` are parameters. So are the row id and `created_at` the store assigns.
- Store and async behaviour:
  - Store errors (`if (error) throw`, `setError`) are not modelled. The loading flags and the `Promise.all` sequence are not modelled either.
  - `deleteApiKey`'s boolean result is not modelled; without errors it is always `true`.
- ApiKeys.NewKey: the insert sets only `user_id`, `name`, `key_prefix` and `key_hash`. The model assumes the table's defaults for the rest: `revoked` false and no `expires_at` or `last_used_at`. The table definition is not part of this model.
- ApiKeys.Revoke: without a signed-in user, `.eq('user_id', undefined)` is modelled as matching no row.
- UsageAggregation.BillingRecord: `id` is held as the month it names, and `RecordKey` prints it as `YYYY-MM`. This is sound because `MonthKeyInjective` makes the printing one-to-one.
- Env.PortSetting: only unset, empty and all-digit values are interpreted. Other text, which `Number()` would read as hex, signed, with surrounding whitespace or as `NaN`, is kept unread as `NumberOf`.
- Env.Environment: only the eight variables the configuration reads are modelled. Other variables cannot affect it.
- Rendering: layout, animation and other UI state are not modelled. This includes the other handlers of the dashboard page (delete confirmation, copy to clipboard), the auth context and the sign-in modals.
- The inference gateway: its credit reservation, routing, signing and metering are not part of this model. Its source code is not part of this model either; only its configuration object is.
