# Seesjek admin dashboard — a verified model of its rules

Seesjek is a small Next.js admin dashboard over a CouchDB store of ride,
food and delivery orders, drivers and customers. Most of it fetches
documents and renders them. This project models the deterministic rules
underneath in Dafny and proves what they guarantee:

- **Dashboard window** (`DashboardRoute`, `DashboardWindow`, `JsDates`, `CivilDate`, `IsoDate`).
  - GET /api/dashboard turns a date and a view mode (daily, weekly, monthly) into the composite view keys `["<date>", null]` .. `["<date>", {}]`.
  - The weekly and monthly cases work on JavaScript `Date` objects, modelled as instants in minutes with a fixed zone offset: `new Date("YYYY-MM-DD")` is UTC midnight, while `getDay`, `getDate`, `setDate` and `new Date(y, m, d)` are local and `toISOString` is UTC.
  - `JsDates.JsDate` is a class whose `SetDate` updates the instant in place. `DashboardRoute.SearchParams` is the URL's query list that the switch appends to.
  - Civil dates are (year, month, day) values with a day count from 0001-01-01, a Monday.
- **The zone matters.**
  - In UTC the monthly window runs from day 2 of the month to day 1 of the next.
  - East of UTC, for instance at UTC+7, local midnight of day 2 is still day 1 in UTC, so the keys are exactly the first and last day of the month.
  - West of UTC the reference date is read as the day before, and the weekly keys run Tuesday to Monday.
  - All of these are proved for a fixed zone offset.
- **Row projections.** The route projections of orders (`??` defaults), customers and drivers (`||` defaults, OFFLINE → inactive) are modelled over a JSON value type `JsValues.JsValue`. The order page's row transform is modelled the same way.
  - Each projection has the TypeError paths of its unguarded member reads. `CouchView.MapRows` makes the first failing row the error.
- **Aggregation.**
  - `ChartOrders` models the `reduce` of the order chart as a loop (`ChartOrders.Reduce`) over a dictionary that starts as `{}`. A date named like an `Object.prototype` member finds an inherited value there and is never counted.
  - `Object.values` lists array-index keys first.
  - `DashboardPage` models the `totalOrders` sum.
- **Pagination.** `UserRoute` models `skip`, `totalPages` and `parseInt` of the page and limit parameters. `UserPage` models the Previous and Next clamps.
- **Page state.** The order, customer and driver pages are classes (`OrderPage.OrderPage`, `UserPage.UserPage`, `DriverPage.DriverPage`) whose handlers update their fields in place.
  - Their list updates are the generic `IdLists` operations: replace by id, remove by id and find first by id. Each comes with its specification lemmas.
- **Access.**
  - `Middleware` models the redirect decision and the matcher.
  - `LoginRoute` models the login check and the session cookie it issues.
  - `NavLayout` models the sidebar's active-link predicate.

Base64 and JSON coding of the session cookie are function-valued parameters. The outcome of every HTTP request is a `CouchView.FetchOutcome` parameter, either a response (`ok`, status, status text, JSON body) or a thrown error. The current date and the environment variables are also parameters.

## Model

| member | source | states |
|---|---|---|
| CivilDate.DaysInMonth | app/api/dashboard/route.ts:38-39 | a month has 28 to 31 days, and 29 exactly for February of a leap year |
| CivilDate.NextDayNumber | app/api/dashboard/route.ts:27-30 | the next calendar day, with month and year rollover, has the next day count |
| CivilDate.PrevDayNumber | app/api/dashboard/route.ts:27 | the previous calendar day has the previous day count |
| CivilDate.PrevNextRoundTrip | app/api/dashboard/route.ts:27-30 | stepping forward then back, or back then forward, returns the same date |
| CivilDate.AddDaysNumber | app/api/dashboard/route.ts:27-30 | moving k days changes the day count by exactly k, in both directions |
| CivilDate.AddDaysCompose | app/api/dashboard/route.ts:26-30 | moving j days and then k days is moving j+k days |
| CivilDate.BeforeIffDayNumberLess | app/api/dashboard/route.ts:29-34 | calendar order of valid dates is the order of their day counts |
| CivilDate.DayNumberInjective | app/api/dashboard/route.ts:29-34 | two valid dates with the same day count are the same date |
| CivilDate.IsoWeekdayFromJsGetDay | app/api/dashboard/route.ts:25 | the ISO weekday is 1..7 and equals getDay with Sunday's 0 mapped to 7 |
| CivilDate.AddDaysWeekday | app/api/dashboard/route.ts:27-30 | moving k days moves the weekday by k modulo 7 |
| CivilDate.FromFirstOfMonth | app/api/dashboard/route.ts:27 | day d of a month is d-1 days after its first day, as setDate reads it |
| IsoDate.Format | app/api/dashboard/route.ts:14 | a date of a four-digit year formats as ten characters with dashes at positions 4 and 7 |
| IsoDate.Parse | app/api/dashboard/route.ts:13 | `new Date(date)` on "YYYY", "YYYY-MM" or "YYYY-MM-DD" gives a valid date of a year 0..9999, read as UTC midnight with a missing month or day taken as 01 |
| IsoDate.DayOfMonthIsMakeDay | app/api/dashboard/route.ts:13 | a day field past the end of its month is carried into the next month exactly as the day arithmetic of `new Date(y, m, d)` carries it |
| IsoDate.ParseDayRollsOver | app/api/dashboard/route.ts:13 | every "YYYY-MM-DD" that reads as a date reads as the first of its month moved forward by the day field less one |
| IsoDate.ParseExamples | app/api/dashboard/route.ts:13 | "2025-11" reads as 1 November, "2025" as 1 January, "2025-02-30" as 2 March, and "2025-13-01", "2025-11-00" and "" are Invalid Date |
| IsoDate.FormatThenParse | app/api/dashboard/route.ts:13-14 | parsing the formatted YYYY-MM-DD text gives the date back |
| IsoDate.ParseThenFormat | app/api/dashboard/route.ts:13-14 | a "YYYY-MM-DD" text naming a real calendar day reads as its own fields, and formatting it gives the text back |
| JsDates.DateOfDay | app/api/dashboard/route.ts:26-30 | the date built from a day count is valid and has that count |
| JsDates.DateOfDayNumber | app/api/dashboard/route.ts:26-30 | converting a date to its day count and back gives the date |
| JsDates.InstantFromLocal | app/api/dashboard/route.ts:25-27 | an instant is its local date and local minute less the zone offset |
| JsDates.LocalOfUtcMidnight | app/api/dashboard/route.ts:13 | UTC midnight of a date reads locally as that date east of UTC and as the previous day west of it |
| JsDates.UtcOfLocalMidnight | app/api/dashboard/route.ts:38-42 | local midnight of a date is that UTC date west of UTC and the previous UTC date east of it |
| JsDates.UtcDateAtMidnightMinute | app/api/dashboard/route.ts:33-34 | the UTC date of a local date at the minute of the parsed midnight is the date itself east of UTC and the next day west of it |
| JsDates.SetDateLocal | app/api/dashboard/route.ts:27 | setDate(n) moves the local date to day n of its month, rolling over, and keeps the local time of day |
| JsDates.SetDateTo | app/api/dashboard/route.ts:27-30 | after setDate reaching a given local date, toISOString's date is that date read back in UTC |
| JsDates.WithDayOfMonthNumber | app/api/dashboard/route.ts:27-30 | setting day n moves the day count by n minus the current day |
| JsDates.WithSameDayOfMonth | app/api/dashboard/route.ts:26 | setting the current day changes nothing |
| JsDates.JsDate.AtUtcMidnight | app/api/dashboard/route.ts:13 | `new Date(date)` holds UTC midnight of the date |
| JsDates.JsDate.Copy | app/api/dashboard/route.ts:26 | `new Date(d)` holds the same instant |
| JsDates.JsDate.AtLocalMidnight | app/api/dashboard/route.ts:38-39 | `new Date(y, m, d)` holds local midnight of the normalised date |
| JsDates.JsDate.GetDay | app/api/dashboard/route.ts:25 | getDay is 0..6 |
| JsDates.JsDate.GetDate | app/api/dashboard/route.ts:27 | getDate is 1..31 |
| JsDates.JsDate.GetMonth | app/api/dashboard/route.ts:38-39 | getMonth is 0..11 |
| JsDates.JsDate.SetDate | app/api/dashboard/route.ts:27 | the instant becomes the local date moved to day n, at the same local time |
| JsDates.JsDate.IsoDatePart | app/api/dashboard/route.ts:14 | the date part of toISOString is a valid date |
| DashboardWindow.WeekdayNumberIsIso | app/api/dashboard/route.ts:25 | the weekday number is the ISO weekday, always 1..7, and 7 exactly when getDay is 0 |
| DashboardWindow.WeekStartIsMonday | app/api/dashboard/route.ts:25-27 | the week's start is a Monday 0 to 6 days before or on the date |
| DashboardWindow.WeekEndIsSunday | app/api/dashboard/route.ts:29-30 | the week's end is exactly 6 days after its start and is a Sunday |
| DashboardWindow.WeekContainsDate | app/api/dashboard/route.ts:25-30 | the date lies within its week, which starts before it ends |
| DashboardWindow.MonthWindowBounds | app/api/dashboard/route.ts:38-39 | the month window runs from day 2 to day 1 of the next month, December to January 1 of the next year, start before end |
| DashboardWindow.MonthWindowLength | app/api/dashboard/route.ts:38-39 | the month window spans the month's length minus one days |
| DashboardWindow.WeekKeys | app/api/dashboard/route.ts:25-34 | the weekly keys are valid dates |
| DashboardWindow.MonthKeys | app/api/dashboard/route.ts:38-42 | the monthly keys are valid dates |
| DashboardWindow.WeekKeysByInstants | app/api/dashboard/route.ts:25-34 | the UTC dates of the Monday and Sunday instants the code builds are the weekly keys |
| DashboardWindow.MonthKeysByInstants | app/api/dashboard/route.ts:38-42 | the UTC dates of the two instants `new Date(y, m, 2)` and `new Date(y, m+1, 1)` are the monthly keys |
| DashboardWindow.WeekKeysAtOrEastOfUtc | app/api/dashboard/route.ts:25-34 | at or east of UTC the weekly keys are the Monday and Sunday of the date's week |
| DashboardWindow.WeekKeysWestOfUtc | app/api/dashboard/route.ts:25-34 | west of UTC the weekly keys are the day after the previous day's Monday and Sunday, so a Tuesday and a Monday |
| DashboardWindow.WeekKeysContainDate | app/api/dashboard/route.ts:25-34 | for every fixed zone offset the weekly keys are 6 days apart and enclose the date |
| DashboardWindow.MonthKeysInUtc | app/api/dashboard/route.ts:38-42 | in UTC the monthly keys are day 2 and day 1 of the next month |
| DashboardWindow.MonthKeysEastOfUtc | app/api/dashboard/route.ts:38-42 | east of UTC the monthly keys are the first and the last day of the month |
| DashboardWindow.MonthKeysWestOfUtc | app/api/dashboard/route.ts:38-42 | west of UTC the monthly keys are the window of the previous day's month |
| DashboardWindow.SundayExample | app/api/dashboard/route.ts:25-30 | Sunday 2025-11-02 is weekday 7 and its week is 2025-10-27..2025-11-02 |
| DashboardWindow.NewYearExample | app/api/dashboard/route.ts:26-30 | Wednesday 2025-01-01 has the week 2024-12-30..2025-01-05 |
| DashboardWindow.TwoDigitYearWindow | app/api/dashboard/route.ts:38-39 | for every date in years 0..99 the monthly window is day 2 of the month in 19yy to day 1 of the next month, spanning the month's length minus one days |
| DashboardWindow.TwoDigitYearExample | app/api/dashboard/route.ts:38-39 | `new Date(50, 2, 2)` is in 1950: years 0..99 map to 1900..1999 |
| DashboardWindow.SundayExampleUtcPlus7 | app/api/dashboard/route.ts:25-34 | at UTC+7 the weekly keys of 2025-11-02 are 2025-10-27 and 2025-11-02 |
| DashboardWindow.NovemberExampleUtcPlus7 | app/api/dashboard/route.ts:38-42 | at UTC+7 the monthly keys of November 2025 are 2025-11-01 and 2025-11-30 |
| DashboardWindow.NovemberExampleUtc | app/api/dashboard/route.ts:38-42 | in UTC the monthly keys of November 2025 are 2025-11-02 and 2025-12-01 |
| CouchView.KeysCarryDate | app/api/dashboard/route.ts:19-20 | both composite keys carry the date text unchanged, and the start and end keys differ |
| CouchView.RowsOf | app/api/dashboard/route.ts:66 | `data.rows` is read as the rows exactly when the body is an object with a rows array |
| CouchView.MapRows | app/api/dashboard/route.ts:66-76 | a row map succeeds exactly when every row does, giving one result per row in order, and otherwise fails with the first failing row's error |
| CouchView.MapRowsAppend | app/api/dashboard/route.ts:66-76 | mapping concatenated rows concatenates the results |
| JsValues.Member | app/api/dashboard/route.ts:67 | reading a member throws exactly on null or undefined |
| JsValues.Element | app/dashboard/order/page.tsx:53 | indexing throws exactly on null or undefined; an array gives its element or undefined past the end, an object its own property named by the index, a number or boolean undefined |
| DashboardRoute.GranularityOf | app/api/dashboard/route.ts:16-44 | exactly the three texts daily, weekly and monthly select a case of the switch |
| DashboardRoute.SearchParams.constructor | app/api/dashboard/route.ts:11 | the query list starts as the URL's own query |
| DashboardRoute.SearchParams.Append | app/api/dashboard/route.ts:19-20 | append adds one pair at the end and keeps the rest |
| DashboardRoute.FirstValue | app/api/dashboard/route.ts:78 | `searchParams.get` is null exactly when no pair has the name, and otherwise the value of the first pair with the name |
| DashboardRoute.WindowParams | app/api/dashboard/route.ts:13-44 | an unknown type appends nothing; a known one appends start_key then end_key; only weekly and monthly fail, on a date that does not parse |
| DashboardRoute.WeekBounds | app/api/dashboard/route.ts:25-30 | the Monday and Sunday objects built by setDate format as the weekly keys |
| DashboardRoute.MonthBounds | app/api/dashboard/route.ts:38-39 | the two month objects format as the monthly keys |
| DashboardRoute.AppendWeekKeys | app/api/dashboard/route.ts:25-34 | the weekly case appends exactly the week's start and end keys |
| DashboardRoute.AppendMonthKeys | app/api/dashboard/route.ts:38-42 | the monthly case appends exactly the month window's start and end keys |
| DashboardRoute.AppendWindowKeys | app/api/dashboard/route.ts:16-44 | the switch succeeds exactly when WindowParams does, appends exactly its pairs, and fails with "Invalid time value" |
| DashboardRoute.ProjectRow | app/api/dashboard/route.ts:66-76 | a row projects exactly when it and its doc are not nullish, and every order counts 1 |
| DashboardRoute.ProjectRowDefaults | app/api/dashboard/route.ts:70-74 | the id is `doc._id`; `??` replaces only null or missing: the date and the customer (`orderData?.nama`, missing when `orderData` is) become "-" exactly when missing, an empty date or name is kept, and the status is "unknown" only when missing or already so |
| DashboardRoute.Get | app/api/dashboard/route.ts:3-83 | the handler's imperative steps answer what Respond specifies |
| DashboardRoute.FirstValueOfKeys | app/api/dashboard/route.ts:78 | the echoed keys are the two appended ones |
| DashboardRoute.EchoedKeys | app/api/dashboard/route.ts:16-21 | an unknown type echoes no keys, and a daily request echoes the raw date's keys |
| DashboardRoute.WeeklyKeys | app/api/dashboard/route.ts:22-35 | a weekly answer echoes the keys of the week's first and last day |
| DashboardRoute.MonthlyKeys | app/api/dashboard/route.ts:36-43 | a monthly answer echoes the keys of the month window |
| DashboardRoute.OneOrderPerRow | app/api/dashboard/route.ts:66-76 | one order per view row, each with total 1 |
| DashboardRoute.FailuresAre500 | app/api/dashboard/route.ts:56-62 | every failure answers status 500 |
| DashboardRoute.InvalidDateFailsFirst | app/api/dashboard/route.ts:79-82 | a weekly or monthly request with an unreadable date fails with "Invalid time value" whatever the store says |
| UserRoute.Skip | app/api/user/route.ts:10 | skip is a number exactly when page and limit are |
| UserRoute.CeilDiv | app/api/user/route.ts:53 | the quotient is the least q with n <= q*d for positive d, and symmetrically for negative d |
| UserRoute.TotalPages | app/api/user/route.ts:53 | totalPages is a number exactly when the total is a number and the limit a non-zero number |
| UserRoute.ProjectCustomer | app/api/user/route.ts:36-44 | a row projects exactly when it and its doc are not nullish, taking the id from `doc._id` |
| UserRoute.Defaults | app/api/user/route.ts:7-8 | without parameters the page is 1 and the limit 10 |
| UserRoute.DefaultTexts | app/api/user/route.ts:7-8 | parseInt reads "1" and "10" as 1 and 10 |
| UserRoute.NumberParamReadsNumber | app/api/user/route.ts:7-8 | a parameter with a decimal number followed by non-digits reads as that number |
| UserRoute.ConsecutivePages | app/api/user/route.ts:10 | consecutive pages start exactly limit rows apart |
| UserRoute.PagesDisjoint | app/api/user/route.ts:10-13 | with a positive limit an earlier page ends before a later page starts |
| UserRoute.TotalPagesBounds | app/api/user/route.ts:53 | no rows give 0 pages; otherwise the pages hold the total with the last page not empty |
| UserRoute.PageHasRowsIffWithinTotal | app/api/user/route.ts:10-53 | a page starts before the total exactly when it is at most totalPages |
| UserRoute.CustomerDefaults | app/api/user/route.ts:40-42 | `||` replaces every falsy field, the empty string included, with Unknown, "-" and inactive |
| UserRoute.ListingShape | app/api/user/route.ts:47-55 | the answer echoes the parsed page and limit, holds one customer per row, and counts 0 without total_rows |
| UserRoute.Failures | app/api/user/route.ts:28-31 | every failure is a 500; only a response that is not ok says "Gagal mengambil data", the rest "Server error" |
| DriverRoute.ProjectDriver | app/api/driver/route.ts:42-52 | a row projects exactly when it and its doc are not nullish, taking the id from the row |
| DriverRoute.GuardBeforeFetch | app/api/driver/route.ts:18-23 | missing credentials answer 500 whatever the store would say |
| DriverRoute.GuardIff | app/api/driver/route.ts:15-18 | the guard fails exactly when a variable is unset or empty |
| DriverRoute.StatusRule | app/api/driver/route.ts:47 | inactive exactly when the doc's status is the string OFFLINE, active otherwise |
| DriverRoute.FieldDefaults | app/api/driver/route.ts:44-51 | text fields keep a truthy value and become "" otherwise; the join date is never empty and falls back to today |
| DriverRoute.DriversShape | app/api/driver/route.ts:42-54 | one driver per row, in order, each with the row's id |
| DriverRoute.NotOkMessage | app/api/driver/route.ts:35-37 | a response that is not ok is reported with its status and status text |
| ChartOrders.SortIndices | components/ChartOrders.tsx:22 | the array-index keys, reordered as a permutation |
| ChartOrders.SortAscending | components/ChartOrders.tsx:22 | the index keys come out in ascending numeric order |
| ChartOrders.OwnKeysOrder | components/ChartOrders.tsx:22 | Object.values lists every own key once, and no other |
| ChartOrders.ValuesOf | components/ChartOrders.tsx:22 | one value per listed key, in key order |
| ChartOrders.StepTallied | components/ChartOrders.tsx:23-32 | one reduce step keeps the accumulator's invariant: keys once each, a first date and a count per key, every date counted, totals summing to the orders not lost to inherited keys |
| ChartOrders.AccumulateTallied | components/ChartOrders.tsx:23-33 | the whole reduce ends with the invariant |
| ChartOrders.Reduce | components/ChartOrders.tsx:23-33 | the in-place loop over the dictionary builds exactly the accumulator the reduce specifies |
| ChartOrders.ChartData | components/ChartOrders.tsx:22-34 | every bar counts the orders with its date, is at least 1, and is not an inherited key |
| ChartOrders.NoOrdersNoBuckets | components/ChartOrders.tsx:23-33 | no orders give no bars |
| ChartOrders.BucketsKeyedByDate | components/ChartOrders.tsx:26-27 | each bucket holds the date it is keyed by |
| ChartOrders.BucketTotals | components/ChartOrders.tsx:30 | a bar's total is the number of orders with its date, at least 1 |
| ChartOrders.BucketsNotInherited | components/ChartOrders.tsx:26 | no bar is keyed by an inherited Object.prototype member |
| ChartOrders.EveryDateHasBucket | components/ChartOrders.tsx:26-28 | every date not inherited has a bar |
| ChartOrders.BucketKeysDistinct | components/ChartOrders.tsx:26-28 | no two bars share a date |
| ChartOrders.FirstOccurrenceOrder | components/ChartOrders.tsx:22-34 | without array-index dates the bars come in first-occurrence order |
| ChartOrders.NoIndexKeys | components/ChartOrders.tsx:22 | without array-index keys Object.values keeps insertion order |
| ChartOrders.IsoDateKeyPlain | components/ChartOrders.tsx:24-27 | a YYYY-MM-DD date is neither an array index nor an Object.prototype member |
| ChartOrders.SumPermutation | components/ChartOrders.tsx:22 | listing the buckets in another order, as Object.values does, keeps the sum of their totals |
| ChartOrders.ChartCountsEveryOrder | components/ChartOrders.tsx:22-34 | for any dates, the bars add up to the number of orders less those whose date names an inherited member |
| ChartOrders.PlainDatesCounted | components/ChartOrders.tsx:22-34 | when no date names an Object.prototype member, "-" included, the bars add up to the number of orders |
| ChartOrders.IsoDatesChart | components/ChartOrders.tsx:22-34 | for date texts the bars sum to the number of orders, come in first-occurrence order and cover every date |
| DashboardPage.ModeName | app/dashboard/page.tsx:10-12 | every view mode has a name |
| DashboardPage.ModeRoundTrip | app/dashboard/page.tsx:28-29 | the route reads back the view mode the page sends |
| DashboardPage.OrderJson | app/api/dashboard/route.ts:78 | an order's JSON object carries its total and date |
| DashboardPage.OrdersJson | app/api/dashboard/route.ts:78 | one JSON object per order, in order |
| DashboardPage.OrderAmount | app/dashboard/page.tsx:45 | a falsy total adds 0, a number adds itself, and a null order throws |
| DashboardPage.TotalOrders | app/dashboard/page.tsx:44-47 | the sum is a number exactly when every order's amount is |
| DashboardPage.OrdersOf | app/dashboard/page.tsx:44 | the orders are read exactly when `orders` is an array |
| DashboardPage.ChartDates | app/dashboard/page.tsx:105 | the map throws exactly when `orders || []` is not an array or holds a null or undefined order, and otherwise element i is `orders[i].date` |
| DashboardPage.ChartDatesOfAnswer | app/dashboard/page.tsx:105 | the chart of a route answer gets the answer's order dates in order, and that of an error answer gets none |
| DashboardPage.TotalAppend | app/dashboard/page.tsx:44-47 | the total of concatenated lists is the sum of their totals |
| DashboardPage.TotalOfOnes | app/dashboard/page.tsx:44-47 | orders of total 1 sum to their number |
| DashboardPage.TotalOfFalsy | app/dashboard/page.tsx:44-47 | orders with falsy totals, and the empty list, sum to 0 |
| DashboardPage.TotalCountsRows | app/dashboard/page.tsx:44-47 | the total shown for a route answer is the number of view rows |
| DashboardPage.FailureHasNoTotal | app/dashboard/page.tsx:32-44 | an error answer has no orders array, so the sum throws |
| DashboardPage.ChartMatchesTotal | app/dashboard/page.tsx:44-107 | for route orders none of whose dates names an Object.prototype member (the "-" default included) the chart's bars sum to the displayed total |
| OrderPage.OrdersPathKeys | app/dashboard/order/page.tsx:37-41 | the request carries the two keys of the selected day, each holding the date |
| OrderPage.TransformRow | app/dashboard/order/page.tsx:47-64 | a row transforms exactly when it, its value and its key are not nullish; the id is the row's and the status is "completed" |
| OrderPage.TransformRows | app/dashboard/order/page.tsx:47-64 | one order per row, in order, each the row's transform |
| OrderPage.ObjectKeyRow | app/dashboard/order/page.tsx:53-62 | a row whose key is an object with properties "0" and "1" takes its creation date and customer from them |
| OrderPage.TransformFields | app/dashboard/order/page.tsx:52-62 | createdAt is key[0]; customerId, type and driver fields keep a truthy value or become "", "ride" and "" |
| OrderPage.DescriptionParts | app/dashboard/order/page.tsx:58-60 | the description is pickup, arrow, destination and time in brackets, a missing part as "" |
| OrderPage.StatusAlwaysCompleted | app/dashboard/order/page.tsx:61 | every transformed order is completed and labelled Selesai |
| OrderPage.TypeLabel | app/dashboard/order/page.tsx:87-98 | the label is "Order" exactly for a type other than ride, food and send |
| OrderPage.StatusLabel | app/dashboard/order/page.tsx:113-124 | the label is "Unknown" exactly for a status other than completed, pending and canceled |
| OrderPage.LabelsDistinguish | app/dashboard/order/page.tsx:87-124 | known types and statuses get pairwise different labels |
| OrderPage.OrderPage.constructor | app/dashboard/order/page.tsx:18-26 | the page starts on today's date with no orders and nothing edited |
| OrderPage.OrderPage.SelectDate | app/dashboard/order/page.tsx:219 | choosing a date changes only the date |
| OrderPage.OrderPage.FetchOrders | app/dashboard/order/page.tsx:33-72 | the orders become the transformed rows; a failed request or transform keeps them and sets the error |
| OrderPage.OrderPage.Edit | app/dashboard/order/page.tsx:126-129 | editing selects the order's id and copies it into the form |
| OrderPage.OrderPage.SaveEdit | app/dashboard/order/page.tsx:131-164 | without a form nothing changes; a saved form replaces the orders with the id and clears the editing state; a failed save keeps the list and sets the error |
| OrderPage.OrderPage.Delete | app/dashboard/order/page.tsx:166-196 | unconfirmed nothing changes; a confirmed delete removes the orders with the id; a failed one sets the error |
| OrderPage.OrderPage.Cancel | app/dashboard/order/page.tsx:198-201 | cancel clears the editing state only |
| OrderPage.SaveReplacesExactly | app/dashboard/order/page.tsx:155 | saving keeps the length, replaces exactly the orders with the id, and leaves the others |
| OrderPage.DeleteRemovesExactly | app/dashboard/order/page.tsx:189 | deleting keeps the other orders in order and leaves none with the id |
| IdLists.Filter | app/dashboard/user/page.tsx:55-60 | the kept items all pass the test and are no more than the input |
| IdLists.FilterSpec | app/dashboard/user/page.tsx:55-60 | the kept items are a subsequence and a sub-multiset of the input, keeping every passing item as often as it occurs |
| IdLists.FilterMembers | app/dashboard/user/page.tsx:55-60 | an item is kept exactly when it is in the input and passes |
| IdLists.FilterAll | app/dashboard/user/page.tsx:55-60 | when every item passes the filter keeps the list |
| IdLists.FilterIdempotent | app/dashboard/user/page.tsx:55-60 | filtering twice is filtering once |
| IdLists.RemoveByIdSpec | app/dashboard/user/page.tsx:101-103 | removal keeps the others in order and with their counts, and leaves none with the id |
| IdLists.RemoveAbsent | app/dashboard/driver/page.tsx:89 | removing an id no item has keeps the list |
| IdLists.ReplaceById | app/dashboard/user/page.tsx:74-76 | the length is kept; each item with the id becomes the form and every other is kept |
| IdLists.ReplaceIdempotent | app/dashboard/driver/page.tsx:62-64 | replacing twice with the same form is replacing once |
| IdLists.ReplaceAbsent | app/dashboard/driver/page.tsx:62-64 | replacing an id no item has keeps the list |
| IdLists.RemoveAfterReplace | app/dashboard/driver/page.tsx:62-89 | removing the id after replacing it is removing it outright |
| IdLists.FindIndex | app/dashboard/user/page.tsx:91 | the index found is the first item with the id, or the length when there is none |
| IdLists.FindByIdSpec | app/dashboard/user/page.tsx:91-92 | the find gives nothing exactly when no item has the id, and otherwise the first item with it |
| IdLists.FindAfterRemove | app/dashboard/driver/page.tsx:79-89 | after removing an id nothing with it can be found |
| Text.IncludesIff | app/dashboard/user/page.tsx:57-59 | includes holds exactly when some position holds the query |
| Text.IncludesEmpty | app/dashboard/user/page.tsx:57-59 | the empty query is included in every text |
| Text.Lower | app/dashboard/user/page.tsx:57-59 | lowercasing keeps the length and lowercases each letter |
| Text.LowerIdempotent | app/dashboard/user/page.tsx:57-59 | lowercasing twice is lowercasing once |
| Text.TrimStart | app/api/user/route.ts:7-8 | the leading white space parseInt skips (ECMAScript WhiteSpace and LineTerminator) is a prefix, and what remains does not start with it |
| Text.ParseIntSkipsUnicodeSpace | app/api/user/route.ts:7-8 | an ideographic space before "5" is skipped and the text reads as 5 |
| Text.ParseIntDecimal | app/api/user/route.ts:7-8 | parseInt reads a decimal number followed by non-digits as that number |
| Text.ParseIntNoDigits | app/api/user/route.ts:7-8 | text without digits reads as no number |
| Text.Pad2RoundTrip | app/api/dashboard/route.ts:14 | a two-digit month or day field reads back as its value |
| Text.Pad4RoundTrip | app/api/dashboard/route.ts:14 | a four-digit year field reads back as its value |
| UserPage.FilteredCustomers | app/dashboard/user/page.tsx:55-60 | the shown customers are a subsequence of the list, each matching the query |
| UserPage.MatchesIff | app/dashboard/user/page.tsx:55-60 | a customer matches exactly when the name or the id holds the query ignoring case, or the phone holds it as written |
| UserPage.NameOrIdIgnoresCase | app/dashboard/user/page.tsx:57-59 | the name and id tests do not depend on the query's case |
| UserPage.FilteredMembers | app/dashboard/user/page.tsx:55-60 | a customer is shown exactly when it is in the list and matches |
| UserPage.EmptyQueryKeepsAll | app/dashboard/user/page.tsx:55-60 | the empty query shows every customer |
| UserPage.PreviousPage | app/dashboard/user/page.tsx:350 | Previous never goes below 1 and steps back by one from above 1 |
| UserPage.NextLeavesFirstPage | app/dashboard/user/page.tsx:363-364 | for an empty list totalPages is 0 and Next takes page 1 to 0 |
| UserPage.NextPage | app/dashboard/user/page.tsx:363 | Next stays within 1..max(totalPages,1) and steps forward by one below the last page |
| UserPage.NextPageMonotone | app/dashboard/user/page.tsx:363-364 | within the pages Next never goes back and stays put exactly on the last page |
| UserPage.UserPage.constructor | app/dashboard/user/page.tsx:15-26 | the page starts empty on page 1 of 1 with limit 10 |
| UserPage.UserPage.Search | app/dashboard/user/page.tsx:254 | typing a query changes only the query, and the shown list becomes its filter |
| UserPage.UserPage.Edit | app/dashboard/user/page.tsx:62-66 | editing selects the id, copies the customer and shows the form |
| UserPage.UserPage.SaveEdit | app/dashboard/user/page.tsx:68-88 | without a form nothing changes; otherwise the customers with the id become the form and the form closes |
| UserPage.UserPage.ClickSave | app/dashboard/user/page.tsx:230 | the save button saves under the form's own id and closes the form with loading off; without a form nothing changes; the query, error, modal, selection and paging stay |
| UserPage.UserPage.Delete | app/dashboard/user/page.tsx:90-94 | delete selects the first customer with the id, or none, and opens the confirmation |
| UserPage.UserPage.ConfirmDelete | app/dashboard/user/page.tsx:96-111 | with nothing selected nothing changes; otherwise the customers with the selected id go and the confirmation closes |
| UserPage.UserPage.CloseDeleteModal | app/dashboard/user/page.tsx:404-407 | closing the confirmation clears the selection only |
| UserPage.UserPage.Cancel | app/dashboard/user/page.tsx:113-117 | cancel clears the editing state and hides the form |
| UserPage.UserPage.OpenAddForm | app/dashboard/user/page.tsx:128-137 | add clears the editing id, sets the blank active form and toggles the form |
| UserPage.UserPage.ShowForm | app/dashboard/user/page.tsx:378 | the empty list's button shows the form and changes nothing else |
| UserPage.UserPage.ClickPrevious | app/dashboard/user/page.tsx:350-351 | Previous is disabled on page 1 and otherwise steps back, never below 1 |
| UserPage.UserPage.ClickNext | app/dashboard/user/page.tsx:363-364 | Next is disabled on the last page and otherwise steps forward within the pages, never below 1 |
| UserPage.AddFormSavesNothing | app/dashboard/user/page.tsx:128-137 | saving the blank add form changes no customer with an id: saving replaces, it never appends |
| UserPage.DeleteSelectsThenRemoves | app/dashboard/user/page.tsx:90-105 | the selection is none exactly when no customer has the id; removing keeps exactly the others in order |
| DriverPage.DriverPage.constructor | app/dashboard/driver/page.tsx:20-27 | the page starts with no drivers and nothing shown |
| DriverPage.DriverPage.Edit | app/dashboard/driver/page.tsx:50-54 | editing selects the id, copies the driver and shows the form |
| DriverPage.DriverPage.SaveEdit | app/dashboard/driver/page.tsx:56-76 | without a form nothing changes; otherwise the drivers with the id become the form and the form closes |
| DriverPage.DriverPage.ClickSave | app/dashboard/driver/page.tsx:267 | the save button saves under the form's own id and closes the form with loading off; without a form nothing changes; the error, modal and selection stay |
| DriverPage.DriverPage.Delete | app/dashboard/driver/page.tsx:78-82 | delete selects the first driver with the id, or none, and opens the confirmation |
| DriverPage.DriverPage.ConfirmDelete | app/dashboard/driver/page.tsx:84-97 | with nothing selected nothing changes; otherwise the drivers with the selected id go and the confirmation closes |
| DriverPage.DriverPage.CloseDeleteModal | app/dashboard/driver/page.tsx:406-409 | closing the confirmation clears the selection only |
| DriverPage.DriverPage.Cancel | app/dashboard/driver/page.tsx:99-103 | cancel clears the editing state and hides the form |
| DriverPage.DriverPage.ToggleForm | app/dashboard/driver/page.tsx:116 | the add button toggles the form and changes nothing else |
| DriverPage.DriverPage.ShowForm | app/dashboard/driver/page.tsx:380 | the empty list's button shows the form |
| DriverPage.SaveReplacesExactly | app/dashboard/driver/page.tsx:62-64 | saving keeps the length, replaces exactly the drivers with the id, and saving again changes nothing |
| DriverPage.DeleteRemovesExactly | app/dashboard/driver/page.tsx:89 | deleting keeps exactly the other drivers in order, and none with the id can be selected after |
| DriverPage.SaveUnchangedForm | app/dashboard/driver/page.tsx:50-64 | saving an unchanged form leaves the list as it was |
| NavLayout.ActiveLinks | app/dashboard/layout.tsx:77-100 | a sidebar link is highlighted exactly when its predicate holds |
| NavLayout.OverviewExact | app/dashboard/layout.tsx:154-155 | the overview link is active only at "/dashboard" |
| NavLayout.BelowHrefIff | app/dashboard/layout.tsx:156 | another link is active exactly when the path starts with its href and ends there or continues with "/" |
| NavLayout.SegmentBoundary | app/dashboard/layout.tsx:156 | the order link is not active at "/dashboard/orders" but is at "/dashboard/order/123" |
| NavLayout.SectionsDiffer | app/dashboard/layout.tsx:84-96 | a path below one section's href is not below another's |
| NavLayout.AtMostOneActive | app/dashboard/layout.tsx:77-156 | at most one sidebar link is active on any path |
| NavLayout.OwnLinkOnly | app/dashboard/layout.tsx:77-156 | on a section's page or below it only that section's link is active |
| Middleware.Handle | middleware.ts:57-59 | a request is only ever redirected to /login or /dashboard |
| Middleware.RedirectTargets | middleware.ts:16-45 | the middleware only ever redirects to /login or /dashboard |
| Middleware.ProtectedNeedsSession | middleware.ts:10-30 | a protected page passes exactly for a session that decodes and names a user, and otherwise goes to /login |
| Middleware.PrefixProtects | middleware.ts:7-8 | protection is a text prefix test, so "/dashboardx" is protected and "/login" is not |
| Middleware.EntryPages | middleware.ts:33-51 | the home and login pages send a signed-in user to /dashboard and let everyone else through |
| Middleware.OtherPagesPass | middleware.ts:54 | every other page passes |
| Middleware.MatcherExclusions | middleware.ts:58 | the API and static files bypass the middleware, the favicon too, while the dashboard, login and home pages do not |
| LoginRoute.Post | app/api/auth/login/route.ts:44-49 | the issued cookie is named session and lasts 604800 seconds |
| LoginRoute.MissingFieldsFirst | app/api/auth/login/route.ts:7-12 | a falsy user name or password is refused with 400 before the configuration is looked at |
| LoginRoute.NotConfiguredNeedsFields | app/api/auth/login/route.ts:18-23 | the configuration error is reached only with both fields given and a variable unset or empty |
| LoginRoute.SuccessIff | app/api/auth/login/route.ts:26-49 | sign-in succeeds exactly when both values equal the configured strings; the answer names the admin "Admin" with an httpOnly, lax cookie that is secure only in production |
| LoginRoute.MismatchRefused | app/api/auth/login/route.ts:26-31 | any difference from the configured values is refused with 401 |
| LoginRoute.IssuedCookieSignsIn | app/api/auth/login/route.ts:44 | under the middleware's username check, a cookie issued on success that decodes back to its user name lets the dashboard through and forwards the login page to the dashboard |

## Left out

- HTTP and the store are not modelled: every request to CouchDB or to the app's own API is a `FetchOutcome` parameter. The URL strings, Basic authorisation headers, `cache: "no-store"` and the console logging are also out.
- DriverRoute.GuardBeforeFetch assumes the view URL is well formed. The driver route builds `new URL(...)` from NEXT_PUBLIC_COUCHDB_URL before its credentials guard, and the dashboard route before its switch, so an unset or malformed base URL throws there first. That throw is not modelled.
- IsoDate.Parse reads only the date-only forms "YYYY", "YYYY-MM" and "YYYY-MM-DD". Date-times (with or without an offset, local when there is none), expanded years and the engine's legacy formats such as "Nov 2 2025" are Invalid Date here, where `new Date` reads them.
- WindowParams inherits that gap: a weekly or monthly request whose date is one of those other forms fails with "Invalid time value" in the model, where the source computes a window.
- InvalidDateFailsFirst inherits the same gap: its "does not read as a date" is IsoDate.Parse's, so it also covers date-times and legacy forms that the source answers.
- JsDates models a zone as one fixed offset from UTC. Daylight saving is out, so a `setDate` that crosses a change of offset (TZ=America/New_York, weekly, 2025-03-09) keeps the local time of day in the source while the offset changes under it. The UTC key then moves by a day: the source's weekly keys are 2025-03-04..2025-03-09, the model's 2025-03-04..2025-03-10.
- Reading the response text in the dashboard route's error path is not modelled.
- Environment variables are parameters: COUCHDB_USERNAME and COUCHDB_PASSWORD of the driver route, ADMIN_USERNAME, ADMIN_PASSWORD and NODE_ENV of the login route.
- The current date (`new Date()`) is a parameter: the driver's default join date and the first selected date of the order page.
- Base64 and JSON coding of the session cookie are function parameters (`writeSession`, `readSession`). Their round trip is a premise of LoginRoute.IssuedCookieSignsIn, not a proof.
- app/api/order/route.ts, app/api/order/[id]/route.ts, app/api/driver/[id]/route.ts and app/api/auth/logout/route.ts are proxies or cookie clearing and are not part of this model. The same holds for the layout's logout handler and its mobile-menu toggle.
- `fetchCustomers` and `fetchDrivers` only copy a fetched body into the page state and are not modelled. The page classes take their lists as given.
- The dashboard page's React state is left out. Its request path, the sum over the fetched JSON and the chart's input are modelled as functions of the chosen values.
- Rendering is left out: JSX, `getTypeIcon`, `getStatusColor`, components/ConfirmModal.tsx, app/page.tsx, the recharts bar chart and the login page.
- Effect scheduling, `async` interleaving and stale closures are left out. Each handler runs to completion on the state it starts from.
- Form field edits (`onChange` of the inputs) are left out. A form is whatever `Edit` or `OpenAddForm` put there.
- The browser's `confirm` dialog is a `confirmed` parameter of OrderPage.OrderPage.Delete.
- Numbers are integers: floating point, NaN and Infinity are out.
  - `parseInt` of text without digits is None rather than NaN.
  - UserRoute.TotalPages has no value for a zero limit instead of Infinity or NaN.
  - UserRoute.TotalPages has no value for a total that is not a number, where `Math.ceil(total / limit)` would coerce a numeric string. CouchDB's `total_rows` is always a number.
  - DashboardPage.OrderAmount gives None for a non-numeric truthy total, where JavaScript would concatenate strings.
- `toLowerCase` is ASCII only: no Unicode case mapping.
- Object identity is not modelled. Ids and records are compared structurally, so a saved form and the record it replaced are equal when their fields are.
- The catch blocks of the user and driver pages' save and delete handlers are not modelled: nothing inside them can throw. Their `err instanceof Error` fallback messages are unreachable.
- The order page's fallback message "Terjadi kesalahan" is not modelled, since every error in it is an Error.
- The driver route's 101-row limit and the view query strings are constants of the request only. The view's own selection of rows is the store's business and is not modelled.
- UserPage.UserPage.ClickNext uses the corrected NextPage, not the code's `Math.min(p + 1, totalPages)`. The written form and the input that breaks it are under Findings.
- DashboardWindow.WeekStart, WeekEnd, MonthStart, MonthEnd and the CivilDate step functions only state that they give valid dates in their own contracts. What they compute is stated by the lemmas in the table.

## Findings

| source | as written | input that shows it | evidently intended | confidence | as-written member | corrected member |
|---|---|---|---|---|---|---|
| app/dashboard/user/page.tsx:363 | Next sets the page to `Math.min(p + 1, totalPages)` and is disabled only when `page === totalPages` | an empty customer list: the route answers totalPages 0, the page is 1, and Next takes it to page 0 | the page stays within 1..max(totalPages, 1) | not executed | UserPage.NextLeavesFirstPage | UserPage.NextPage |
