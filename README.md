# reyes-finance: a verified model of the dashboard's logic

reyes-finance is a small finance dashboard (Next.js, with Supabase for
storage and sign-in). It lists a consultancy's projects ("proyectos"): client,
contracted service, work status, price in CLP, payment status and completion
date. This project models the deterministic logic behind the screens and
proves what it promises:

- **ServiceName** (`normalizeServicio`). Trims service names and maps the four
  legacy spellings of the AI workshop to "Talleres IA". It is idempotent, its
  output is trimmed, and it is empty exactly for a blank input.
- **Analytics** (the charts panel). Builds the rolling 12-month revenue series:
  the records it counts are bucketed by month, and the series is twelve
  consecutive months ending at the latest month with data, with empty months
  zero-filled. Also builds the revenue-by-service breakdown: grouped by
  normalised name, positive groups only, sorted largest first and stably. It
  also decides when the panel renders nothing.
- **Dashboard** (the table and its handlers). Covers:
  - the search and the stable three-key sort, including the sort-header state
    machine;
  - the three payment KPIs, which together with the records carrying none
    of their labels partition the total, and the 2024 to 2026 year totals;
  - the badge colours;
  - the edit form, the save and delete effects;
  - the component's state, as a class.
- **ProjectForm** (the project dialog). A class whose methods update the form
  state. It covers the UF-to-CLP conversion guard (with `parseFloat` on a
  decimal prefix and `Math.round`), the price field's digit filter, the
  service option list, and the submit and delete guards.
- **Middleware**, **AuthCallback**, **HomePage**, **UserProfile**. The redirect
  tables of the middleware and the OAuth callback, and the fallback chain that
  builds the header's user.
- **Support modules.**
  - Text: JavaScript's `trim`, `\s`, `toLowerCase`, `includes` and
    `startsWith`.
  - Sorting: a stable insertion sort by an integer key, standing for
    `Array.prototype.sort`, which is stable.
  - Calendar: `Date.getTime` on a decoded UTC date, in milliseconds since
    1970-01-01.
  - Records: the stored project row.
  - Wrappers: `Option` and the `??` chain.

Every stored field that may be null is an `Option`. Dates are decoded
(year, month 0-11, day) values. The sort's collation order and
`encodeURIComponent` are parameters of the functions that use them.

All files are verified together, with `dafny verify *.dfy`. Every proof also
stays within `--resource-limit 2000000`.

## Model

| member | source | states |
|---|---|---|
| Wrappers.Coalesce | src/app/page.tsx:15-28 | an `a ?? b ?? …` chain is absent exactly when every operand is, and otherwise is the first present operand |
| Text.Trim | src/lib/utils.ts:10-11 | `trim` leaves no white space at either end |
| Text.TrimIsSlice | src/lib/utils.ts:10-11 | the trim is a contiguous slice of the input, starting after its leading white space |
| Text.TrimCutsSpace | src/lib/utils.ts:10-11 | what the trim cut away on both sides is white space |
| Text.TrimIdempotent | src/lib/utils.ts:20 | trimming twice is trimming once |
| Text.TrimEmptyIffBlank | src/lib/utils.ts:10 | the trim is empty exactly when the text is all white space (the `!s?.trim()` test) |
| Text.LowerIdempotent | src/lib/utils.ts:11 | lower-casing an already lower-cased string changes nothing |
| Text.LowerConcat | src/lib/utils.ts:11 | `toLowerCase` works character by character, so it distributes over concatenation |
| Text.LowerNoCapitals | src/components/dashboard.tsx:173 | no ASCII or Latin-1 capital survives lower-casing |
| Text.CollapseFixed | src/lib/utils.ts:11 | `replace(/\s+/g, " ")` leaves text with single plain spaces unchanged |
| Text.CollapseRunConcat | src/lib/utils.ts:11 | the white-space collapse works piece by piece, each piece continuing the previous one's run |
| Text.ContainsIffOccurs | src/components/dashboard.tsx:175 | `includes(q)` holds exactly when `q` occurs as a contiguous slice |
| Text.ContainsHasOccurrence | src/components/dashboard.tsx:175 | when `includes(q)` holds, `q` occurs at some position |
| Text.OccurrenceIsContained | src/components/dashboard.tsx:175 | an occurrence of `q` at any position makes `includes(q)` hold |
| Text.DigitsValueOfNatToDigits | src/components/proyecto-modal.tsx:222-229 | reading back a number's decimal digits gives the number |
| Sorting.SortBy | src/components/dashboard.tsx:179-198 | the sort's result is ordered by the key and is a permutation of its input |
| Sorting.InsertStable | src/components/dashboard.tsx:179 | inserting one element keeps the relative order of the elements with equal keys |
| Sorting.SortByStable | src/components/dashboard.tsx:179 | the sort is stable: elements with equal keys keep their input order |
| ServiceName.NormalizeServicio | src/lib/utils.ts:9-21 | the result is trimmed, and it is "" exactly when the input is absent or blank |
| ServiceName.MatchKey | src/lib/utils.ts:11 | the comparison key is never longer than the name |
| ServiceName.MatchKeyOfTrim | src/lib/utils.ts:10-11 | trimming a name first does not change its key |
| ServiceName.LegacyBecomesCanonical | src/lib/utils.ts:11-19 | a name whose trimmed, lower-cased, space-collapsed form is one of the four legacy spellings becomes "Talleres IA" |
| ServiceName.OtherNamesTrimmed | src/lib/utils.ts:20 | any other non-blank name comes back trimmed, with its casing and inner spacing kept |
| ServiceName.CanonicalKey | src/lib/utils.ts:11-18 | "Talleres IA" is trimmed and is not itself a legacy spelling |
| ServiceName.NormalizeIdempotent | src/lib/utils.ts:9-21 | normalising twice is the same as normalising once |
| ServiceName.ExampleLegacySpelling | src/lib/utils.ts:8-19 | " TALLER IA\t-  Abogados " (upper case, a tab and doubled spaces) becomes "Talleres IA" |
| Calendar.EpochIsZero | src/components/dashboard.tsx:187-192 | 1970-01-01 is day 0 of the time scale |
| Calendar.DayBeforeEpoch | src/components/dashboard.tsx:187-192 | 1969-12-31 is day -1, so dates before 1970 have negative times |
| Calendar.MarchYearLength | src/components/dashboard.tsx:187-192 | consecutive years on the day scale are 365 days apart, or 366 days when leap |
| Calendar.NextMonth | src/components/dashboard.tsx:187-192 | the first of the next month is the first of this month plus the month's length, across December too |
| Calendar.PrevMonth | src/components/dashboard.tsx:187-192 | every month has a predecessor, one month number earlier, whose first comes exactly its length before |
| Calendar.FirstsIncrease | src/components/dashboard.tsx:187-192 | the first of every later month comes at least one whole month later |
| Calendar.LaterMonth | src/components/dashboard.tsx:187-192 | any day of a later month has a larger day number than any valid day of an earlier one |
| Calendar.Chronological | src/components/dashboard.tsx:187-192 | `getTime` is strictly increasing in calendar order for valid dates |
| Analytics.BilledWithDate | src/components/analytics-charts.tsx:60-65 | a record enters the monthly series exactly when it has a date, a price, and its lower-cased payment status is not "por facturar" |
| Analytics.FromOrdinal | src/components/analytics-charts.tsx:90-94 | stepping months back with `new Date(y, m - i, 1)` lands on the month with that ordinal, wrapping across years |
| Analytics.OrdinalRoundTrip | src/components/analytics-charts.tsx:80-94 | a month's ordinal decodes back to the month |
| Analytics.DataMonthsMeaning | src/components/analytics-charts.tsx:72-77 | the months with data are exactly the months of the counted records |
| Analytics.DataMonthsEmpty | src/components/analytics-charts.tsx:70 | there is no month with data exactly when no record is counted |
| Analytics.MonthTotalOutside | src/components/analytics-charts.tsx:96 | a month without data totals 0 |
| Analytics.BilledWithDateKeepsMonths | src/components/analytics-charts.tsx:60-77 | bucketing only the counted records yields the same months with data |
| Analytics.BilledWithDateKeepsTotals | src/components/analytics-charts.tsx:60-77 | bucketing only the counted records yields the same monthly totals |
| Analytics.MonthlyMapOfBilled | src/components/analytics-charts.tsx:72-77 | the map built from the counted records holds every month with data, each with its total |
| Analytics.MonthlyMap | src/components/analytics-charts.tsx:72-77 | the accumulation loop builds a map whose keys are the months with data, each holding the sum of that month's prices |
| Analytics.LatestUnique | src/components/analytics-charts.tsx:80-85 | the latest month with data is unique |
| Analytics.LatestMonth | src/components/analytics-charts.tsx:80-85 | with data present, there is a month with data that no other month with data follows |
| Analytics.LatestKey | src/components/analytics-charts.tsx:80-85 | the maximum over the map's keys is the latest month with data |
| Analytics.Series | src/components/analytics-charts.tsx:68-104 | the series has 0 or 12 points, and none exactly when no month has data; its points are stated by SeriesPoints and SeriesMonthsConsecutive |
| Analytics.SeriesLength | src/components/analytics-charts.tsx:68-104 | the series is empty when no record is counted, and has exactly 12 points otherwise |
| Analytics.SeriesMonthsConsecutive | src/components/analytics-charts.tsx:88-101 | the points are consecutive months, oldest first, wrapping from December to January of the next year, and the last is the latest month |
| Analytics.SeriesPoints | src/components/analytics-charts.tsx:95-101 | each point has its month's name, its month's year and its month's total (0 without data), and the last point is the latest month with data |
| Analytics.LastTwelve | src/components/analytics-charts.tsx:87-102 | the countdown from 11 to 0 pushes exactly the twelve specified points, oldest first, each reading its month's total or 0 |
| Analytics.MonthlySeries | src/components/analytics-charts.tsx:68-105 | the countdown loop that pushes the points builds exactly the specified series |
| Analytics.ServiceKey | src/components/analytics-charts.tsx:110-113 | the key is trimmed, and it is "" exactly for a non-empty service made only of white space |
| Analytics.ServiceKeyNamed | src/components/analytics-charts.tsx:111-112 | a non-blank service is grouped under its normalised name |
| Analytics.ServiceKeyUnspecified | src/components/analytics-charts.tsx:113 | an absent or empty service is grouped under "Sin especificar" |
| Analytics.ServiceKeyWhitespace | src/components/analytics-charts.tsx:111-113 | a service made only of white space is grouped under "", not under "Sin especificar" |
| Analytics.IndexOfName | src/components/analytics-charts.tsx:114 | the lookup finds a group of that name, or reports that none exists |
| Analytics.ServiceMap | src/components/analytics-charts.tsx:108-115 | the loop with `continue` builds exactly the specified groups, in first-insertion order |
| Analytics.AddToProps | src/components/analytics-charts.tsx:114 | adding an amount keeps names distinct, adds the amount to the total, and adds only the given name |
| Analytics.GroupDistinct | src/components/analytics-charts.tsx:108-115 | each name has one group |
| Analytics.GroupNames | src/components/analytics-charts.tsx:108-115 | a name has a group exactly when some counted entry carries it |
| Analytics.GroupValues | src/components/analytics-charts.tsx:108-115 | each group holds the sum of its name's entries |
| Analytics.GroupTotal | src/components/analytics-charts.tsx:108-115 | grouping preserves the total |
| Analytics.EntriesTotal | src/components/analytics-charts.tsx:109-114 | the entries' total is the total price of the records that are not "por facturar" and have a price |
| Analytics.EntriesMembers | src/components/analytics-charts.tsx:109-114 | the entries are exactly the counted records, keyed by service |
| Analytics.ServiceGroupsProps | src/components/analytics-charts.tsx:108-115 | the groups have distinct names, cover exactly the keys of the counted records, each holds its key's sum, and together they hold the counted total |
| Analytics.Positive | src/components/analytics-charts.tsx:119 | the filter keeps exactly the groups with a value above 0 |
| Analytics.SumValuesSort | src/components/analytics-charts.tsx:120 | sorting does not change the total |
| Analytics.ServicesData | src/components/analytics-charts.tsx:117-120 | the breakdown is a permutation of the positive groups, sorted by non-increasing value |
| Analytics.SumValuesPositive | src/components/analytics-charts.tsx:119 | dropping the groups that are not positive never lowers the sum, and keeps it when no group is negative |
| Analytics.ServicesDataProps | src/components/analytics-charts.tsx:117-120 | the breakdown holds exactly the positive groups, each once, in non-increasing order of value; its sum is never below the groups' sum, and equals it when no group is negative |
| Analytics.ServiceGroupsNonNegative | src/components/analytics-charts.tsx:108-115 | with no negative counted price, no group is negative |
| Analytics.ServiceGroupsPositive | src/components/analytics-charts.tsx:108-119 | with positive prices every group is positive, so the filter drops none |
| Analytics.ServicesDataTotal | src/components/analytics-charts.tsx:108-120 | the breakdown never adds up to less than the counted total, and adds up to exactly that total when no counted price is negative (groups of 0, from prices of 0, drop out without changing it) |
| Analytics.Panel | src/components/analytics-charts.tsx:122-125 | the panel renders nothing exactly when both the series and the breakdown are empty, and otherwise shows both |
| Analytics.BilledRecordDrawsPanel | src/components/analytics-charts.tsx:60-70 | one counted record is enough for the series to be drawn |
| ProjectForm.Get | src/components/proyecto-modal.tsx:22-31 | every field holds a value of its own kind |
| ProjectForm.With | src/components/proyecto-modal.tsx:111-113 | `updateField(f, v)` sets field `f` to `v` and leaves every other field and the id unchanged |
| ProjectForm.FieldsDetermineForm | src/components/proyecto-modal.tsx:22-31 | two forms with the same id and the same field values are equal |
| ProjectForm.WithSame | src/components/proyecto-modal.tsx:111-113 | writing a field's own value back changes nothing |
| ProjectForm.ReplaceFirstComma | src/components/proyecto-modal.tsx:104 | `replace(",", ".")` keeps the length |
| ProjectForm.FirstComma | src/components/proyecto-modal.tsx:104 | the position found is the first comma, or the end when there is none |
| ProjectForm.ReplaceFirstCommaSpec | src/components/proyecto-modal.tsx:104 | only the first comma becomes a point; every other character is kept |
| ProjectForm.LeadingDigits | src/components/proyecto-modal.tsx:104 | `parseFloat` reads the longest run of leading digits |
| ProjectForm.ParseFloatOfDigitString | src/components/proyecto-modal.tsx:104-105 | any non-empty digit string, leading zeros included, reads as its value |
| ProjectForm.ParseFloatOfDecimal | src/components/proyecto-modal.tsx:104-105 | a decimal quantity, digits, a point and digits with a digit on at least one side, reads as its value |
| ProjectForm.ParseFloatOfDigits | src/components/proyecto-modal.tsx:104 | the decimal digits of a whole number parse to that number |
| ProjectForm.ParseFloat | src/components/proyecto-modal.tsx:104-105 | text without any digit parses to NaN, so the price is left alone; digit strings read as their value (ParseFloatOfDigits) |
| ProjectForm.RoundHalfUp | src/components/proyecto-modal.tsx:106 | `Math.round` gives the integer within one half of the value, halves rounded up |
| ProjectForm.UfPrice | src/components/proyecto-modal.tsx:104-107 | a price results exactly when the quantity parses to a number above 0 and the rate is known, and it is the product rounded |
| ProjectForm.UfPriceNonNegative | src/components/proyecto-modal.tsx:105-106 | with a positive rate the converted price is never negative |
| ProjectForm.KeepDigits | src/components/proyecto-modal.tsx:226 | `replace(/\D/g, "")` leaves only digits, never more characters than there were |
| ProjectForm.KeepDigitsConcat | src/components/proyecto-modal.tsx:226 | the digit filter works piece by piece |
| ProjectForm.KeepDigitsOfDigits | src/components/proyecto-modal.tsx:226 | the digit filter leaves a digit string unchanged |
| ProjectForm.PriceFromInput | src/components/proyecto-modal.tsx:226-229 | the price is empty exactly when the input has no digit, and otherwise a non-negative number |
| ProjectForm.KeepDigitsOfGrouped | src/components/proyecto-modal.tsx:222 | removing the thousands separators from a grouped number gives back its digits |
| ProjectForm.PriceText | src/components/proyecto-modal.tsx:219-223 | the field is empty exactly for an empty price, and an amount is shown after "$"; PriceTextRoundTrip reads it back |
| ProjectForm.PriceTextRoundTrip | src/components/proyecto-modal.tsx:219-229 | editing the displayed price without changes keeps a non-negative price |
| ProjectForm.PriceTextDropsSign | src/components/proyecto-modal.tsx:219-229 | editing a displayed negative price turns it positive, because the minus sign is filtered out |
| ProjectForm.ServiceOptions | src/components/proyecto-modal.tsx:177-183 | the options start with the fixed list, add the current value exactly when it is non-empty and not already listed, and hold nothing else |
| ProjectForm.ServiceOptionsDistinct | src/components/proyecto-modal.tsx:46-53 | the options never repeat an entry |
| ProjectForm.ProjectDialog.constructor | src/components/proyecto-modal.tsx:82-86 | the dialog starts with the empty form, not saving, no UF quantity and no rate |
| ProjectForm.ProjectDialog.Open | src/components/proyecto-modal.tsx:90-94 | opening loads the given data, or the empty form, clears the UF quantity and starts loading the rate |
| ProjectForm.ProjectDialog.RateLoaded | src/components/proyecto-modal.tsx:95-98 | the fetched rate, or its absence, is stored and loading ends |
| ProjectForm.ProjectDialog.UpdateField | src/components/proyecto-modal.tsx:111-113 | the form becomes the old form with the one field replaced |
| ProjectForm.ProjectDialog.AplicarUF | src/components/proyecto-modal.tsx:102-109 | the typed text is always kept, and the price changes only to the rounded conversion when the guard passes |
| ProjectForm.ProjectDialog.PriceEdited | src/components/proyecto-modal.tsx:224-231 | editing the price clears the UF quantity and stores the input's digits as the price |
| ProjectForm.ProjectDialog.BeginSubmit | src/components/proyecto-modal.tsx:115-119 | submitting hands the current form to the save callback and marks the dialog as saving |
| ProjectForm.ProjectDialog.EndCallback | src/components/proyecto-modal.tsx:118-123 | after the callback the dialog is no longer saving, and it closes only on success |
| ProjectForm.ProjectDialog.BeginDelete | src/components/proyecto-modal.tsx:126-135 | confirmation is asked only with a delete handler and a truthy id, and the delete is requested only if confirmed |
| ProjectForm.ExampleDecimalComma | src/components/proyecto-modal.tsx:104 | "17,5" is read as 17.5 |
| UserProfile.EmailLocalPart | src/app/page.tsx:27 | `split("@")[0]` is the prefix of the email before its first "@", or the whole email |
| UserProfile.AvatarChain | src/app/page.tsx:15-20 | the avatar is the first present of the metadata's `avatar_url` and `picture`, then the first identity's, else absent |
| UserProfile.NameChain | src/app/page.tsx:21-28 | the name is the first present of the four name fields, then the email's local part, else "Usuario"; an empty `full_name` is kept |
| UserProfile.DisplayUser | src/app/page.tsx:12-28 | the header's user keeps the account's email; its name and avatar are stated by NameChain and AvatarChain |
| UserProfile.DefaultNameOnlyWithoutEmail | src/app/page.tsx:22-28 | "Usuario" is used exactly when the email and all four name fields are absent |
| UserProfile.OnlyFirstIdentity | src/app/page.tsx:12-14 | identities after the first are never read, and the email is passed on unchanged |
| HomePage.Page | src/app/page.tsx:5-34 | the page redirects to "/login" exactly when nobody is signed in, and otherwise renders the dashboard with DisplayUser of the signed-in user |
| Middleware.Decide | src/middleware.ts:4-51 | a redirect changes only the URL's pathname, and the callback path, and only it, passes through without an auth lookup |
| Middleware.RedirectTable | src/middleware.ts:33-50 | the request is sent to "/login" exactly when signed out off the auth routes, and to "/" exactly when signed in on "/login" |
| Middleware.NoRedirectLoop | src/middleware.ts:35-48 | following a redirect never leads to another redirect |
| Middleware.PrefixQuirks | src/middleware.ts:35-44 | "/authors" and "/login/x" pass through when signed out, and "/login/x" passes through when signed in too |
| AuthCallback.Callback | src/app/auth/callback/route.ts:4-34 | every location begins with the origin string (a string prefix only: `next` is appended unchecked), and the code is exchanged exactly when there is no error parameter and there is a code |
| AuthCallback.ErrorFirst | src/app/auth/callback/route.ts:12-17 | an error parameter wins over the code and reports the encoded description, or "auth_failed" |
| AuthCallback.SuccessGoesNext | src/app/auth/callback/route.ts:7-29 | a successful exchange goes to `next`, which defaults to "/" only when absent |
| AuthCallback.FailureReported | src/app/auth/callback/route.ts:32-33 | a failed exchange goes to the login page with the encoded error message |
| AuthCallback.MissingCode | src/app/auth/callback/route.ts:19-21 | without an error parameter and without a code, the login page is told "no_code" and nothing is exchanged |
| AuthCallback.OpenRedirect | src/app/auth/callback/route.ts:7-28 | with `next` = ".evil.com" the route as written leaves the origin |
| AuthCallback.SafeNext | src/app/auth/callback/route.ts:7 | the checked `next` is always a local path, is `next` itself when that is local, and "/" when it is missing |
| AuthCallback.SafeCallback | src/app/auth/callback/route.ts:4-34 | with `next` checked, every outcome stays on the origin, and the code is exchanged exactly as in the route |
| AuthCallback.SafeCallbackAgrees | src/app/auth/callback/route.ts:4-34 | for a missing or local `next` the checked route is the route as written |
| Dashboard.EstadoTone | src/components/dashboard.tsx:63-70 | the work badge is blue exactly for the lower-cased status "agendado!", emerald exactly for "curso hecho :)", and muted for every other status, a missing one included; it never uses the payment colours |
| Dashboard.EstadoToneIgnoresCase | src/components/dashboard.tsx:63-70 | the work badge ignores case: a status and its lower-cased form get the same colour |
| Dashboard.EstadoPagoTone | src/components/dashboard.tsx:72-81 | the payment badge is red, emerald or amber exactly for the records the matching KPI counts, and muted for all others |
| Dashboard.EstadoOptionsColoured | src/components/dashboard.tsx:63-70 | the form's two work statuses get the blue and emerald badges |
| Dashboard.EstadoPagoOptionsColoured | src/components/dashboard.tsx:72-81 | the form's three payment statuses get the red, amber and emerald badges |
| Dashboard.Matching | src/components/dashboard.tsx:174-175 | the filter keeps exactly the records whose lower-cased client contains the query, each as many times as it occurs, and a record without a client never matches |
| Dashboard.SearchFilter | src/components/dashboard.tsx:170-176 | a blank search keeps every record; otherwise the filter keeps exactly the records matching the lower-cased, untrimmed query, duplicates included |
| Dashboard.Filtered | src/components/dashboard.tsx:169-199 | the table is a permutation of the searched records, ordered by the key in the chosen direction, with a missing price, date or client read as 0, time 0 or "" |
| Dashboard.FilteredStable | src/components/dashboard.tsx:179 | rows that tie on the key keep their fetched order |
| Dashboard.UndatedSortsAsEpoch | src/components/dashboard.tsx:187-192 | in ascending date order, a row without a date comes before every row dated after 1970-01-01 and after every row dated before it |
| Dashboard.LabelsDisjoint | src/components/dashboard.tsx:211-221 | no record is counted by two KPIs |
| Dashboard.KpiSum | src/components/dashboard.tsx:211-221 | a KPI is 0 when no record carries its label |
| Dashboard.KpiPartition | src/components/dashboard.tsx:211-221 | the three KPIs and the records with none of the labels add up to the total of all prices |
| Dashboard.KpisWithinTotal | src/components/dashboard.tsx:211-221 | with no negative price, each KPI is non-negative and together they never exceed the total |
| Dashboard.BacklogPlusCharted | src/components/dashboard.tsx:212-213 | the invoicing backlog plus the revenue the service chart counts is the total of all prices |
| Dashboard.YearSum | src/components/dashboard.tsx:224-236 | a year's total is 0 when no dated, priced record falls in it |
| Dashboard.VentasPorAnio | src/components/dashboard.tsx:224-236 | the year totals are, for 2024, 2025 and 2026, the sum of the prices of the dated records of that year, 0 for a year without sales |
| Dashboard.YearIsItsMonths | src/components/dashboard.tsx:224-236 | a year's total over the records the revenue chart counts is the sum of that year's twelve monthly chart totals |
| Dashboard.EditForm | src/components/dashboard.tsx:243-255 | the form edits the record itself (truthy id exactly when the id is not 0), shows an empty price exactly when there is none, and keeps the price and the date |
| Dashboard.PayloadOf | src/components/dashboard.tsx:260-268 | an empty price is written as 0, an amount as itself, and the date as it is |
| Dashboard.WriteFor | src/components/dashboard.tsx:260-279 | a truthy id updates that row and anything else inserts, always with the payload, in which an empty price is written as 0 |
| Dashboard.HandleSave | src/components/dashboard.tsx:257-282 | without a store nothing is written; otherwise the write is issued, its error is thrown, and the table reloads exactly after a successful write |
| Dashboard.HandleDelete | src/components/dashboard.tsx:284-294 | without a store nothing is deleted; otherwise the row is deleted, an error is thrown, and the table reloads exactly after success |
| Dashboard.EditThenSave | src/components/dashboard.tsx:243-279 | saving an unchanged edit writes the record back with the service normalised, a missing text field as "" and a missing price as 0 (so an unpriced record comes back priced 0 and is then counted by the charts), and updates it exactly when its id is not 0 |
| Dashboard.EditServiceSettles | src/components/dashboard.tsx:247 | editing a record again after saving shows the same service |
| Dashboard.NextSort | src/components/dashboard.tsx:201-208 | clicking a header selects its key; the same key flips the direction, and a new key starts ascending only for the client |
| Dashboard.SortTwiceRestores | src/components/dashboard.tsx:201-208 | clicking the current header twice restores the sort |
| Dashboard.DashboardState.constructor | src/components/dashboard.tsx:88-102 | the dashboard starts loading, with no rows, no error, an empty search and the sort by date descending |
| Dashboard.DashboardState.FetchProyectos | src/components/dashboard.tsx:104-124 | the fetch ends loading; it reports the configuration message, or the store's error, or replaces the rows (none when no data came back); afterwards the analytics panel is mounted exactly when the rows it holds are not empty |
| Dashboard.DashboardState.Rows | src/components/dashboard.tsx:169-199 | the table shows a permutation of the state's searched records, ordered by the state's sort key in its direction |
| Dashboard.DashboardState.ApplyUser | src/components/dashboard.tsx:132-160 | a signed-in user replaces the shown user with the same fallback chain as the home page; no user changes nothing |
| Dashboard.DashboardState.SetSearch | src/components/dashboard.tsx:88-102 | typing replaces the search and leaves the stored rows as they are |
| Dashboard.DashboardState.HandleSort | src/components/dashboard.tsx:201-208 | the sort state moves as `NextSort` says and nothing else changes |
| Dashboard.DashboardState.HandleNew | src/components/dashboard.tsx:238-241 | the dialog opens on a new project, which does not count as an edit |
| Dashboard.DashboardState.HandleEdit | src/components/dashboard.tsx:243-255 | the dialog opens on the record's form data, and counts as an edit exactly when the id is not 0 |

## Left out

- The store and sign-in (Supabase) are not modelled. Their answers are
  inputs: the rows fetched, the error of a write, the exchange's error, the
  signed-in user. This covers the clients in src/lib/supabase.ts and
  src/lib/supabase/server.ts, the session subscription, and sign-out.
- The middleware's cookie plumbing (`setAll`) and its matcher pattern are not
  modelled. The middleware's decision takes "is there a user" as an input.
- `fetchValorUF` is not modelled. Its network call and JSON reading are
  reduced to an optional rate handed to `RateLoaded`. The race between a late
  rate and a price typed in the meantime is not modelled.
- Floating point is not modelled: quantities and rates are real numbers.
  - ProjectForm.RoundHalfUp: `Math.round` is modelled as floor(x + 1/2) on
    exact reals, without double rounding.
  - ProjectForm.ParseFloat: `parseFloat` reads the sign, the digits, one
    fraction and an exponent exactly; "Infinity" and rounding to the nearest
    double are not modelled.
  - Prices are integers, so `Number(...)` on stored prices is the identity
    here.
- Dates are decoded (year, month, day) values.
  - JavaScript's parsing of "YYYY-MM-DD" (UTC) and the local-time `getMonth`
    and `getFullYear` are not modelled; a time zone that shifts a date across
    a month boundary is therefore not captured.
  - Invalid dates, which give NaN comparator values, are not modelled.
  - `new Date(y, m, 1)` reads years 0 to 99 as 1900 to 1999. The series
    builds its months from plain (year, month) pairs, so records dated in
    those years are not modelled as the browser would place them.
- Dashboard.SortValue: `localeCompare` is modelled as comparing collation
  ranks from a parameter `collate`, which makes it a total preorder. The
  collation itself is not modelled.
- AuthCallback.Callback: `encodeURIComponent` is a parameter `encode`. The
  redirect builds its URL with whatever it returns.
- Text.LowerChar: `toLowerCase` is modelled for ASCII and Latin-1 letters
  only.
- Number formatting is not modelled: `formatCLP`, `formatCLPShort`,
  `toLocaleString` and `Intl` formats.
  - ProjectForm.PriceText groups thousands with "." for every number of
    digits. The es-CL locale may leave four-digit numbers ungrouped; the
    digit filter gives back the same price either way.
- Rendering is not modelled: JSX, `cn`, chart colours, tooltips, and the
  static layout, manifest and login pages.
- Casts are not modelled. The `as string` casts of untyped metadata are
  taken at face value: a present metadata field is a string.
- `window.confirm` is a boolean input of `BeginDelete`.
- Dashboard.DashboardState.FetchProyectos: the `order("id")` of the query
  is not modelled. The rows are whatever order the store returns.

## Findings

| source | as written | input that shows it | evidently intended | confidence | as-written member | corrected member |
|---|---|---|---|---|---|---|
| src/app/auth/callback/route.ts:7-28 | after a successful exchange the route redirects to `${origin}${next}` with `next` taken unchecked from the query | origin `https://app.cl`, query `?code=c&next=.evil.com`: the location is `https://app.cl.evil.com`, another host (an open redirect) | follow `next` only when it is a local path (one leading "/", not "//" or "/\"), otherwise go to "/" | high for the string result; not executed | AuthCallback.OpenRedirect | AuthCallback.SafeCallback |
