# Grocery Tracker — a verified model of its core logic

Grocery Tracker is a Next.js app. A shopper uploads a photo of a grocery receipt. A vision model reads the photo into a store name, a date, a total and line items. The app stores them and then shows:

- spending analytics;
- per-store pages;
- price comparisons across stores;
- an editor for items and their brand, generic name and variant.

This project models that logic in Dafny and proves properties of it.

The model covers three parts of the app:

- **The two API routes.** `parse-receipt` checks the request, deletes old items, cleans the model's reply, parses it, coerces each item and writes the receipt. `delete-receipt` checks ownership, removes the stored image and deletes the row. Each route is a function `Handle` from the request and the collaborators' answers to a response and the ordered list of database and storage writes. A step-by-step method (`Post`, `Delete`) is proved to compute it.
- **The matching engine** (`lib/receipt-matching.ts`). It covers `calculateSimilarity`, the Levenshtein matrix, `findBestMatch` and `enhanceWithMatches`. Each of these is a loop or matrix method proved equal to a recursive specification, and the specification's properties are proved separately.
- **The pages and components:**
  - the reduces on the analytics, stores and admin-logs pages;
  - the price-comparison, spending-trend and category-breakdown cards;
  - navigation, the top-items card and the autocomplete field;
  - the item-suggestions hook, the link-items dialog, and the edit, add and upload forms.

  A pure computation becomes a function with its facts proved as lemmas. A component that updates state becomes a class whose methods change its fields.

## How the model is organised

There is one module per source file. Shared code lives in seven modules:

| module | contents |
|---|---|
| `Wrappers` | `Option` |
| `Text` | ASCII case mapping, `trim`, `includes`, `split`/`join`, `capitalizeWords` |
| `Seqs` | sums, filter, slice |
| `Sorting` | a stable sort by a real key |
| `Grouping` | group-by in order of first appearance, and the count/total tallies built over it |
| `Records` | the table rows, and a nullable column read with a fallback |
| `Doubles` | the IEEE 754 results of a division by zero: ±Infinity and NaN |

The model makes these modelling choices:

- **Objects used as dictionaries.** The source builds `{}` objects keyed by store, category, date, brand or name. The model keeps them as sequences in order of first insertion. That is the order `Object.entries` gives for keys that are not array indices; keys such as "711" or "7" come first in JavaScript, in ascending numeric order. The model also treats every key as fresh until it is first inserted, which a key inherited from `Object.prototype` (such as "constructor") is not (both under "## Left out"). Each reduce is written twice:
  - as the accumulator loop that bumps or appends an entry (`Grouping.TallyBy`, `Stores.CollectStats`, `LinkItems.GroupRows`);
  - as a declarative tally of the group-by (`Grouping.Tallies`).

  The two are proved equal.
- **Collaborators become parameters.** Supabase, OpenAI, `fetch`, the router, `confirm`, `parseFloat`, `toString`, `Date` and `Date.now` become arguments: a boolean or `Option` outcome per call, or a function.
- **Truthiness.** A nullable text field is truthy when it is present and non-empty. `Records.Present` and `ParseReceipt.Truthy` spell this out.
- **Numbers** are exact reals. Counts are `nat`.

## Behaviour kept as the code has it

The model follows the code in each case:

- `findBestMatch` accepts a candidate whose score `>= 0.7` (`lib/receipt-matching.ts:97`), so a score of exactly 0.7 is a match. The comment just above it (`lib/receipt-matching.ts:96`) says "above 70%".
- The `parse-receipt` route repairs no truncated reply, has no separate "no items" error (an empty `items` array is a success that inserts nothing), does not call `enhanceWithMatches` and writes no usage log. `ParseReceipt` models the route that way, and `ReceiptMatching` models the matcher on its own.
- The analytics page's comment says "Ungrouped items (no brand or generic name)". The reduce at `app/analytics/page.tsx:222-236` counts every item, and so does `Analytics.Ungrouped`.
- On the stores page, the `lastVisit` sort mutates each store's receipt list in place (`app/stores/page.tsx:54-58`). The model keeps the receipts as a multiset and proves that `lastVisit` is the date of a latest receipt.
- In the spending-trend card, an earlier average of 0 makes `percentChange` `±Infinity` or `NaN` (`components/stores/store-spending-trend.tsx:126`). The model keeps that sign rule rather than excluding the case.
- In the category breakdown, a total of 0 makes each percentage a division by zero (`components/stores/store-category-breakdown.tsx:88`): a positive entry shows "Infinity%", a negative one "-Infinity%" and an entry of 0 "NaN%". The model keeps that sign rule (`Doubles.Divide`).
- `EditItem`'s delete leaves `deleting` set after a successful delete (`components/receipts/edit-item.tsx:113`).
- The upload card's "not logged in" path does not touch `parsing` (`components/receipts/upload-receipt.tsx:54-58`).

## Model

| member | source | states |
|---|---|---|
| ReceiptMatching.Or | grocery-tracker/lib/receipt-matching.ts:90 | JavaScript's `or` on optional texts: the first when it is a non-empty text, otherwise the second |
| ReceiptMatching.Min3 | grocery-tracker/lib/receipt-matching.ts:64-68 | the minimum of three costs is one of them and no larger than any |
| ReceiptMatching.EditDistanceEmpty | grocery-tracker/lib/receipt-matching.ts:54-60 | the distance between a text and the empty text is the text's length, both ways round |
| ReceiptMatching.EditDistanceSymmetric | grocery-tracker/lib/receipt-matching.ts:48-74 | the unit-cost edit distance does not depend on the order of its arguments |
| ReceiptMatching.EditDistanceUpperBound | grocery-tracker/lib/receipt-matching.ts:48-74 | the distance is at most the length of the longer text |
| ReceiptMatching.EditDistanceLowerBound | grocery-tracker/lib/receipt-matching.ts:48-74 | the distance is at least the difference of the two lengths |
| ReceiptMatching.EditDistanceZeroIffEqual | grocery-tracker/lib/receipt-matching.ts:48-74 | the distance is 0 exactly when the two texts are equal |
| ReceiptMatching.EditDistancePrefixStep | grocery-tracker/lib/receipt-matching.ts:62-70 | the recurrence the matrix fill uses: a cell of equal characters copies its diagonal, otherwise it is one more than the least of its three neighbours |
| ReceiptMatching.LevenshteinDistance | grocery-tracker/lib/receipt-matching.ts:48-74 | the matrix algorithm returns the recursive edit distance between the two texts |
| ReceiptMatching.FillRow | grocery-tracker/lib/receipt-matching.ts:61-71 | filling row `i` sets each of its cells to the edit distance of the matching prefixes and leaves every other row as it was |
| ReceiptMatching.EditRatio | grocery-tracker/lib/receipt-matching.ts:36-42 | for a non-empty longer text, `(longer - distance) / longer` lies in [0, 1] |
| ReceiptMatching.RatioBounds | grocery-tracker/lib/receipt-matching.ts:41-42 | a ratio of a count to a larger positive count lies in [0, 1] and is 1 exactly when they are equal |
| ReceiptMatching.Similarity | grocery-tracker/lib/receipt-matching.ts:21-43 | the score of two texts always lies in [0, 1] |
| ReceiptMatching.NormalizedSimilarity | grocery-tracker/lib/receipt-matching.ts:29-42 | the score of two normalised texts always lies in [0, 1] |
| ReceiptMatching.CalculateSimilarity | grocery-tracker/lib/receipt-matching.ts:21-43 | the method's score is the similarity of its two texts |
| ReceiptMatching.CompareNormalized | grocery-tracker/lib/receipt-matching.ts:29-42 | the exact, containment and edit-ratio rules, applied in that order, give the normalised similarity |
| ReceiptMatching.SimilaritySymmetric | grocery-tracker/lib/receipt-matching.ts:25-43 | `calculateSimilarity(a, b) == calculateSimilarity(b, a)` for all texts |
| ReceiptMatching.NormalizedSimilaritySymmetric | grocery-tracker/lib/receipt-matching.ts:29-42 | the normalised score is symmetric, including the tie on equal lengths |
| ReceiptMatching.SimilarityOneIffSameNormalized | grocery-tracker/lib/receipt-matching.ts:26-30 | the score is 1.0 exactly when the texts are equal after lower-casing and trimming |
| ReceiptMatching.NormalizedSimilarityOne | grocery-tracker/lib/receipt-matching.ts:29-42 | on normalised texts the score is 1.0 exactly when they are equal |
| ReceiptMatching.SimilarityBlankText | grocery-tracker/lib/receipt-matching.ts:26-33 | a whitespace-only text scores 0.8 against any text that is not blank, because its empty normal form is contained in every text |
| ReceiptMatching.CompareText | grocery-tracker/lib/receipt-matching.ts:90 | the comparison text is non-empty exactly when the generic name, the brand or the variant is set |
| ReceiptMatching.FirstBest | grocery-tracker/lib/receipt-matching.ts:86-100 | the chosen index is accepted and has the highest score, every earlier accepted index scores strictly lower, and there is none exactly when nothing is accepted |
| ReceiptMatching.ScoresBy | grocery-tracker/lib/receipt-matching.ts:91-95 | one score per candidate, in order |
| ReceiptMatching.Comparable | grocery-tracker/lib/receipt-matching.ts:90-92 | one flag per candidate, set exactly when its comparison text is non-empty |
| ReceiptMatching.BestMatchBy | grocery-tracker/lib/receipt-matching.ts:83 | an empty receipt text or an empty candidate list gives no match |
| ReceiptMatching.BestMatchIsBest | grocery-tracker/lib/receipt-matching.ts:83-103 | a match is a candidate with a non-empty comparison text scoring at least 0.7, at least as high as every such candidate and strictly higher than every earlier one; no match means no candidate qualifies |
| ReceiptMatching.FindBestMatchPicksHighest | grocery-tracker/lib/receipt-matching.ts:97-100 | with the source's measure: no match means every comparable candidate scores below 0.7, and a match scores at least as high as any comparable candidate reaching 0.7 |
| ReceiptMatching.ScoresBySnoc | grocery-tracker/lib/receipt-matching.ts:86-101 | scoring one more candidate appends its score |
| ReceiptMatching.ComparableSnoc | grocery-tracker/lib/receipt-matching.ts:86-101 | flagging one more candidate appends its flag |
| ReceiptMatching.FirstBestSnoc | grocery-tracker/lib/receipt-matching.ts:97-100 | one more loop iteration replaces the running best exactly when the new score is higher and at least 0.7 |
| ReceiptMatching.FindBestMatch | grocery-tracker/lib/receipt-matching.ts:79-104 | the greedy loop returns the specified best match |
| ReceiptMatching.EnhanceItem | grocery-tracker/lib/receipt-matching.ts:116-157 | an enhanced item keeps its receipt text and name, never replaces a set field, takes the matched record's value for each of the six fields it lacks (generic name, brand, variant, size, unit, category), and is unchanged when it needs nothing, has no receipt text or finds no match |
| ReceiptMatching.EnhanceAll | grocery-tracker/lib/receipt-matching.ts:116-157 | one enhanced item per input item, same length and order |
| ReceiptMatching.EnhanceAllSnoc | grocery-tracker/lib/receipt-matching.ts:116-157 | mapping one more item appends its enhancement |
| ReceiptMatching.IsEnhancedIffGained | grocery-tracker/lib/receipt-matching.ts:133-143 | an item is counted exactly when one of its missing fields gained a non-empty value |
| ReceiptMatching.CountEnhancedBound | grocery-tracker/lib/receipt-matching.ts:141-143 | the enhanced count is at most the number of items |
| ReceiptMatching.CountEnhancedSnoc | grocery-tracker/lib/receipt-matching.ts:141-143 | one more item adds one to the count exactly when it is enhanced |
| ReceiptMatching.CompleteItemsUntouched | grocery-tracker/lib/receipt-matching.ts:118-123 | items with generic name, brand, size and unit all set come back as they are and count nothing |
| ReceiptMatching.EnhanceWithMatches | grocery-tracker/lib/receipt-matching.ts:110-158 | the loop returns the enhanced items and the count of those that gained data, which is at most the number of items |
| ParseCleanup.StripFence | grocery-tracker/app/api/parse-receipt/route.ts:184-185 | removing a fence never lengthens the text; what it removes and keeps is stated for all inputs by StripFenceKeepsPrefix and StripFenceDrops |
| ParseCleanup.StripFenceKeepsPrefix | grocery-tracker/app/api/parse-receipt/route.ts:184-185 | for any text: a part in which no fence starts is kept as it is, in front of the cleaned rest |
| ParseCleanup.StripFenceDrops | grocery-tracker/app/api/parse-receipt/route.ts:184-185 | for any text: the first fence is removed together with at most one newline after it, the text before it stays and the text after it is cleaned in turn (for "```json" and for "```" alike) |
| ParseCleanup.StripFenceUntouched | grocery-tracker/app/api/parse-receipt/route.ts:184-185 | a text without the fence's first character passes through unchanged |
| ParseCleanup.BackticksAtFront | grocery-tracker/app/api/parse-receipt/route.ts:185 | "```" occurs at the front exactly when the first three characters are backticks |
| ParseCleanup.StripBackticksHead | grocery-tracker/app/api/parse-receipt/route.ts:185 | the stripped text starts with a backtick only if the original did |
| ParseCleanup.StripBackticksHead2 | grocery-tracker/app/api/parse-receipt/route.ts:185 | the stripped text starts with two backticks only if the original did |
| ParseCleanup.NoBackticksAfterStrip | grocery-tracker/app/api/parse-receipt/route.ts:185 | no run of three backticks survives the "```" pass |
| ParseCleanup.StripFencesLeavesNoFence | grocery-tracker/app/api/parse-receipt/route.ts:183-186 | after both fence passes the text holds no "```" anywhere |
| ParseCleanup.LineEnd | grocery-tracker/app/api/parse-receipt/route.ts:189 | the end of a line is the first line terminator at or after the start, or the end of the text |
| ParseCleanup.StripLineComments | grocery-tracker/app/api/parse-receipt/route.ts:189 | removing line comments never lengthens the text |
| ParseCleanup.SlashesAtFront | grocery-tracker/app/api/parse-receipt/route.ts:189 | "//" occurs at the front exactly when the first two characters are slashes |
| ParseCleanup.StripLineCommentsHead | grocery-tracker/app/api/parse-receipt/route.ts:189 | the output starts with a slash only when the input did and no comment began there |
| ParseCleanup.NoSlashesAfterStrip | grocery-tracker/app/api/parse-receipt/route.ts:189 | no "//" survives the line-comment pass, even one that was inside a URL |
| ParseCleanup.StripLineCommentsUntouched | grocery-tracker/app/api/parse-receipt/route.ts:189 | a text without "//" passes through unchanged |
| ParseCleanup.StripLineCommentsOneLine | grocery-tracker/app/api/parse-receipt/route.ts:189 | on one line everything from the first "//" on is dropped |
| ParseCleanup.StripLineCommentsKeepsPrefix | grocery-tracker/app/api/parse-receipt/route.ts:189 | text in which no "//" starts, whatever follows it, is kept unchanged in front of the cleaned rest |
| ParseCleanup.StripLineCommentsKeepsBreak | grocery-tracker/app/api/parse-receipt/route.ts:189 | for any text: a comment is cut up to its line terminator, which stays, together with the text before the comment; the following lines are cleaned in turn |
| ParseCleanup.StripBlockCommentsUntouched | grocery-tracker/app/api/parse-receipt/route.ts:190 | a text without "/*" passes through unchanged |
| ParseCleanup.StripBlockCommentsKeepsPrefix | grocery-tracker/app/api/parse-receipt/route.ts:190 | text in which no "/*" starts, whatever follows it, is kept unchanged in front of the cleaned rest |
| ParseCleanup.StripBlockCommentsNoCloser | grocery-tracker/app/api/parse-receipt/route.ts:190 | a text without "*/" passes through unchanged, whatever openers it holds |
| ParseCleanup.StripBlockCommentsClosed | grocery-tracker/app/api/parse-receipt/route.ts:190 | for any text: a comment is removed from its "/*" through the nearest "*/" after it (the lazy match), the text before it stays and the text after it is cleaned in turn |
| ParseCleanup.StripBlockCommentsUnclosed | grocery-tracker/app/api/parse-receipt/route.ts:190 | for any text: a "/*" with no "*/" after it stays, together with the text before and after it |
| ParseCleanup.NonCommas | grocery-tracker/app/api/parse-receipt/route.ts:193 | dropping the commas never lengthens the text |
| ParseCleanup.StripTrailingCommasOnlyCommas | grocery-tracker/app/api/parse-receipt/route.ts:193 | only commas are ever removed: the other characters stay, in order |
| ParseCleanup.StripTrailingCommasNoComma | grocery-tracker/app/api/parse-receipt/route.ts:193 | a text without commas passes through unchanged |
| ParseCleanup.StripTrailingCommasSplit | grocery-tracker/app/api/parse-receipt/route.ts:193 | the pass works on either side of a character that is neither whitespace nor a closing brace or bracket on its own |
| ParseCleanup.StripTrailingCommasDropsComma | grocery-tracker/app/api/parse-receipt/route.ts:193 | for any text: a comma followed by whitespace and a "}" or "]" is removed while the whitespace and the bracket stay, and the text on either side is cleaned on its own |
| ParseCleanup.StripTrailingCommasKeepsComma | grocery-tracker/app/api/parse-receipt/route.ts:193 | for any text: a comma not followed by whitespace and a closing brace or bracket stays |
| ParseCleanup.StripTrailingCommasOnePass | grocery-tracker/app/api/parse-receipt/route.ts:193 | one global pass removes only the last of two adjacent commas before a bracket |
| ParseCleanup.CleanContentNoLineComment | grocery-tracker/app/api/parse-receipt/route.ts:183-189 | after the fence and line-comment passes no "//" is left |
| ParseCleanup.CleanContentOfCleanText | grocery-tracker/app/api/parse-receipt/route.ts:183-193 | trimmed text without backticks, commas or comment openers is left unchanged by the whole clean-up |
| ParseReceipt.LastMemberFound | grocery-tracker/app/api/parse-receipt/route.ts:195 | a key is found exactly when some member has it, and the value is that of the last such member |
| ParseReceipt.Get | grocery-tracker/app/api/parse-receipt/route.ts:209 | only objects have members |
| ParseReceipt.OrElse | grocery-tracker/app/api/parse-receipt/route.ts:220-223 | a field or its fallback: the field when it is truthy, the fallback otherwise |
| ParseReceipt.NumberOr | grocery-tracker/app/api/parse-receipt/route.ts:245-247 | a parsed number or its fallback: the parsed number unless it is NaN or 0 |
| ParseReceipt.ReceiptUpdateOf | grocery-tracker/app/api/parse-receipt/route.ts:217-223 | a truthy parsed store name, date and total are written as they are, and a falsy one becomes 'Unknown', today's date or 0; the whole parsed reply is kept as the raw text |
| ParseReceipt.ItemRowDefaults | grocery-tracker/app/api/parse-receipt/route.ts:238-250 | an item row defaults its name to 'Unknown Item', its brand to null and its category to 'other'; its quantity is never 0, and is 1 when the field does not parse or parses to 0; its prices are the parsed numbers, or 0 when they do not parse or parse to 0; its sale flag is the truthiness of the field |
| ParseReceipt.ItemRowsOf | grocery-tracker/app/api/parse-receipt/route.ts:238-250 | one row per item, in the same order |
| ParseReceipt.Thrown | grocery-tracker/app/api/parse-receipt/route.ts:270-276 | the outer catch answers 500 with the error's message, or 'Failed to parse receipt' when it has none |
| ParseReceipt.Details | grocery-tracker/app/api/parse-receipt/route.ts:200-204 | the details are a prefix of the raw reply of at most 500 characters, the whole reply when it is that short |
| ParseReceipt.OptionString | grocery-tracker/app/api/parse-receipt/route.ts:42 | a nullable text is truthy exactly when it is a non-empty text |
| ParseReceipt.AfterDelete | grocery-tracker/app/api/parse-receipt/route.ts:171-269 | after the delete: at most the update and then the insert are written, the update only when the reply is usable and the insert only when the update succeeded; a 200 has written the update |
| ParseReceipt.Store | grocery-tracker/app/api/parse-receipt/route.ts:209-269 | from the parsed reply on: the update is written only when there is an items array, the insert holds the coerced rows, and a 200 carries the parsed data |
| ParseReceipt.Write | grocery-tracker/app/api/parse-receipt/route.ts:216-269 | the update is always written; the insert exactly when the update succeeded and there are items, none of them null (a null item throws while building rows); 200 exactly when the update succeeded and the insert did or was not needed |
| ParseReceipt.Handle | grocery-tracker/app/api/parse-receipt/route.ts:9-277 | statuses are 200, 400, 401, 404 or 500; writes come in order delete, update, insert; nothing is written before the checks pass; a 200 means every check passed and the reply was usable |
| ParseReceipt.CheckOrder | grocery-tracker/app/api/parse-receipt/route.ts:13-47 | missing receiptId gives 400, then no user 401, then no receipt 404, then no image 400, and a failed check writes nothing |
| ParseReceipt.EmptyContentStops | grocery-tracker/app/api/parse-receipt/route.ts:171-177 | an empty AI reply gives 500 'No response from AI' after the delete and before any clean-up |
| ParseReceipt.ParseFailureDetails | grocery-tracker/app/api/parse-receipt/route.ts:196-206 | a reply that does not parse gives 500 with at most the first 500 characters of the raw reply as details |
| ParseReceipt.EmptyItemsSucceed | grocery-tracker/app/api/parse-receipt/route.ts:237 | an empty items array is a success that updates the receipt and inserts nothing |
| ParseReceipt.MissingItemsRejected | grocery-tracker/app/api/parse-receipt/route.ts:209-214 | a missing or non-array items gives 500 and writes nothing after the delete |
| ParseReceipt.SuccessInsertsEveryItem | grocery-tracker/app/api/parse-receipt/route.ts:217-269 | a success wrote the delete and the update, then one coerced row per item in order when there are items |
| ParseReceipt.Post | grocery-tracker/app/api/parse-receipt/route.ts:9-277 | the route's step-by-step body answers and writes what `Handle` specifies |
| ParseReceipt.ParseAndStore | grocery-tracker/app/api/parse-receipt/route.ts:171-206 | reading, cleaning and parsing the reply answer and write what `AfterDelete` specifies |
| ParseReceipt.StoreParsed | grocery-tracker/app/api/parse-receipt/route.ts:209-214 | validating the parsed reply answers and writes what `Store` specifies |
| ParseReceipt.StoreItems | grocery-tracker/app/api/parse-receipt/route.ts:209-214 | reading items from a reply that is not null answers and writes what `Store` specifies |
| ParseReceipt.StoreWrites | grocery-tracker/app/api/parse-receipt/route.ts:209-237 | with an items array, storing is writing the update and the rows of its elements |
| ParseReceipt.WriteParsed | grocery-tracker/app/api/parse-receipt/route.ts:217-263 | the update then the insert answer and write what `Write` specifies |
| DeleteReceipt.StoragePathAfterMarker | grocery-tracker/app/api/delete-receipt/route.ts:44-46 | there is a storage path exactly when the URL holds '/receipt-images/', and it is the text after the first marker up to the next one or the end |
| DeleteReceipt.Thrown | grocery-tracker/app/api/delete-receipt/route.ts:78-84 | the outer catch answers 500 with the error's message or 'Failed to delete receipt' |
| DeleteReceipt.Removal | grocery-tracker/app/api/delete-receipt/route.ts:41-56 | the storage remove is issued at most once, exactly when the image URL is set and holds the marker, and it removes the storage path taken from that URL |
| DeleteReceipt.Handle | grocery-tracker/app/api/delete-receipt/route.ts:5-85 | statuses are 200, 400, 401, 404 or 500; any write comes after all checks passed and ends with the row delete; 200 exactly when something was written and the delete succeeded; a request that passes every check issues the image removal (if any) and then the row delete, and answers 200 with the success message, or 500 'Failed to delete receipt' when the delete fails; an unreadable or null body answers the outer catch's 500 with no writes |
| DeleteReceipt.CheckOrder | grocery-tracker/app/api/delete-receipt/route.ts:8-38 | missing id gives 400, then no user 401, then not found or not owned 404, each writing nothing |
| DeleteReceipt.NoMarkerNoRemoval | grocery-tracker/app/api/delete-receipt/route.ts:41-45 | a missing image URL, or one without the marker, never touches storage |
| DeleteReceipt.StorageErrorTolerated | grocery-tracker/app/api/delete-receipt/route.ts:52-56 | a failed storage remove changes neither the response nor the writes |
| DeleteReceipt.Delete | grocery-tracker/app/api/delete-receipt/route.ts:5-85 | the route's body answers and writes what `Handle` specifies |
| Nav.Title | grocery-tracker/components/layout/nav.tsx:28 | the heading always starts with the app title |
| Nav.TitleMarksAdmin | grocery-tracker/components/layout/nav.tsx:13 | the heading carries ' - Admin' exactly on pages under '/admin' |
| Nav.LinkClassActiveIff | grocery-tracker/components/layout/nav.tsx:15-20 | a link gets the active class exactly when the pathname equals its path, or the path is not '/dashboard' and the pathname starts with it |
| Nav.DashboardExactOnly | grocery-tracker/components/layout/nav.tsx:17 | '/dashboard' is active only on '/dashboard' itself |
| Nav.RawPrefixMatch | grocery-tracker/components/layout/nav.tsx:17 | prefix matching is on raw text: '/stores' is active on '/storesX'; '/dashboard/x' does not activate '/dashboard' |
| Nav.Links | grocery-tracker/components/layout/nav.tsx:30-71 | admin pages show, in order, a plainly styled link back to '/dashboard', Stores to '/admin/stores' and API Logs to '/admin/api-logs'; other pages always show Receipts to '/dashboard', Analytics to '/analytics' and Stores to '/stores', in that order, followed for admins only by the Admin link to '/admin/stores'; every link but the two plain ones is styled by the active-link rule |
| Nav.AdminPagesNeverHighlightDashboard | grocery-tracker/components/layout/nav.tsx:32-37 | on admin pages no link to the dashboard is styled active |
| Analytics.TopKeyIsMax | grocery-tracker/app/analytics/page.tsx:44-63 | with non-empty keys the top key is missing exactly when there are no entries, and otherwise no entry has a larger total |
| Analytics.Average | grocery-tracker/app/analytics/page.tsx:40 | the average times the count is the total, and 0 without receipts |
| Analytics.StoreKeysNonEmpty | grocery-tracker/app/analytics/page.tsx:44-52 | every store key is non-empty, 'Unknown' standing for none |
| Analytics.CategoryKeysNonEmpty | grocery-tracker/app/analytics/page.tsx:55-63 | every category key is non-empty, 'other' standing for none |
| Analytics.TopFacts | grocery-tracker/app/analytics/page.tsx:44-63 | top store and top category exist exactly when there are receipts or items, and each has the largest total |
| Analytics.SaleFacts | grocery-tracker/app/analytics/page.tsx:66-71 | the sale count counts exactly the items on sale, and the savings are a fifth of their spend |
| Analytics.SavingsAreAFifth | grocery-tracker/app/analytics/page.tsx:69-71 | summing a fifth of each price is a fifth of the summed prices |
| Analytics.SpendingByStoreFacts | grocery-tracker/app/analytics/page.tsx:85-100 | at most ten rows, by total descending, one per store name, each counting and summing exactly the receipts under that name |
| Analytics.SpendingByStoreTopTen | grocery-tracker/app/analytics/page.tsx:98-99 | no store left out spent more than a store shown, and with ten stores or fewer every receipt's store is shown |
| Analytics.SpendingByCategoryFacts | grocery-tracker/app/analytics/page.tsx:103-113 | one row per category by total descending: every item's category has a row, every row's category belongs to at least one item, each row is the sum of its items, and the rows sum to the whole spend |
| Analytics.SpendingOverTimeFacts | grocery-tracker/app/analytics/page.tsx:116-127 | one row per date, ascending in time: every receipt's date (today's for none) has a row, every row's date belongs to at least one receipt, each row is the sum of that date's receipts, and the rows sum to the whole spend |
| Analytics.GroupedOrder | grocery-tracker/app/analytics/page.tsx:130-219 | brand and generic groups come by purchase count descending under distinct keys |
| Analytics.GroupedKeysPresent | grocery-tracker/app/analytics/page.tsx:133 | only items with the field set are grouped, so every group key is non-empty |
| Analytics.GroupedKeysCover | grocery-tracker/app/analytics/page.tsx:133-166 | every item with the field set has a group under its value |
| Analytics.GroupedEntries | grocery-tracker/app/analytics/page.tsx:130-173 | each group counts and sums exactly its items; its count is the sum of its sub-items' counts and its total theirs; sub-item names are distinct |
| Analytics.UngroupedFacts | grocery-tracker/app/analytics/page.tsx:222-236 | every item is counted under its name, counts summing to the number of items and totals to the whole spend, by count descending |
| Analytics.ComputeSpendingByStore | grocery-tracker/app/analytics/page.tsx:85-100 | the reduce, sort and slice compute `SpendingByStore` |
| Analytics.ComputeSpendingByCategory | grocery-tracker/app/analytics/page.tsx:103-113 | the reduce and sort compute `SpendingByCategory` |
| Analytics.ComputeSpendingOverTime | grocery-tracker/app/analytics/page.tsx:116-127 | the reduce and date sort compute `SpendingOverTime` |
| Analytics.ComputeGrouped | grocery-tracker/app/analytics/page.tsx:130-173 | the nested reduce and sort compute `Grouped` |
| Analytics.ComputeUngrouped | grocery-tracker/app/analytics/page.tsx:222-236 | the name reduce and sort compute `Ungrouped` |
| Stores.AllStats | grocery-tracker/app/stores/page.tsx:27-43 | one entry per group |
| Stores.AllStatsAt | grocery-tracker/app/stores/page.tsx:27-43 | the entry at each position is the one its group adds up to |
| Stores.AllStatsPlace | grocery-tracker/app/stores/page.tsx:30-41 | adding a receipt to its group is one step of the reduce on the entries |
| Stores.StatsGroupByStep | grocery-tracker/app/stores/page.tsx:27-43 | the entries after one more receipt are one reduce step on those before |
| Stores.StatsStepAt | grocery-tracker/app/stores/page.tsx:38-41 | a receipt of a known store updates that entry in place |
| Stores.StatsStepNew | grocery-tracker/app/stores/page.tsx:30-37 | a receipt of a new store appends a fresh entry with that one visit |
| Stores.StatsStepInPlace | grocery-tracker/app/stores/page.tsx:29-41 | the reducer body is one reduce step |
| Stores.CollectStats | grocery-tracker/app/stores/page.tsx:27-43 | the reduce over the receipts builds the entries of the grouping by store name |
| Stores.FindIndex | grocery-tracker/app/stores/page.tsx:46-48 | the lookup index is the first store whose name matches case-insensitively, or past the end |
| Stores.FindStoreFirst | grocery-tracker/app/stores/page.tsx:46-48 | the lookup finds the first case-insensitive match, and nothing exactly when no name matches |
| Stores.Color | grocery-tracker/app/stores/page.tsx:52 | the colour is never empty |
| Stores.CardOf | grocery-tracker/app/stores/page.tsx:45-60 | a card keeps its entry's name, spend and visit count, holds the same receipts, and its average is spend over visits |
| Stores.Cards | grocery-tracker/app/stores/page.tsx:45-60 | one card per entry |
| Stores.CardsAt | grocery-tracker/app/stores/page.tsx:45-60 | the card at each position is the card of that entry |
| Stores.ComputeStoreCards | grocery-tracker/app/stores/page.tsx:27-62 | the page's reduce, map and sort compute `StoreCards` |
| Stores.CardsCover | grocery-tracker/app/stores/page.tsx:27-60 | before sorting: one card per name, each covering exactly the receipts under its name |
| Stores.StoreCardsFacts | grocery-tracker/app/stores/page.tsx:61 | most visited first, one card per name, each covering exactly its receipts with at least one visit |
| Stores.CardSums | grocery-tracker/app/stores/page.tsx:39-41 | summing visits or spend over the cards is summing the group tallies |
| Stores.StoreCardsTotals | grocery-tracker/app/stores/page.tsx:27-43 | the visit counts add up to the number of receipts and the spends to the whole spend |
| Stores.StoreCardsCover | grocery-tracker/app/stores/page.tsx:28 | every receipt's store has a card |
| Stores.CardOfFacts | grocery-tracker/app/stores/page.tsx:46-58 | the last visit is the purchase date of a latest receipt; logo and colour come from the first matching store, the colour defaulting to '#3b82f6' both when no store matches and when the matching store's colour is null or empty |
| ApiLogs.Access | grocery-tracker/app/admin/api-logs/page.tsx:15-22 | the logs show exactly for signed-in admins, and no user goes to the login page |
| ApiLogs.SummarizeFacts | grocery-tracker/app/admin/api-logs/page.tsx:32-43 | successes and failures add up to the calls, the truncated calls are among them, and the token total is not negative |
| ApiLogs.MissingValuesCountZero | grocery-tracker/app/admin/api-logs/page.tsx:32-38 | a log without a parsable cost or without tokens adds 0 to that total |
| ApiLogs.SuccessRateFacts | grocery-tracker/app/admin/api-logs/page.tsx:66-68 | the rate is 0 without calls, otherwise the share of successes in percent, between 0 and 100, and 100 exactly when nothing failed |
| ApiLogs.RateBounds | grocery-tracker/app/admin/api-logs/page.tsx:67 | a share of a positive whole in percent lies in [0, 100] and is 100 exactly for the whole |
| ApiLogs.PreviewFacts | grocery-tracker/app/admin/api-logs/page.tsx:189-192 | the preview is the text when it has at most 1000 characters, otherwise its first 1000 followed by '...' |
| ApiLogs.PreviewNone | grocery-tracker/app/admin/api-logs/page.tsx:189 | no response text shows nothing |
| PriceComparison.ItemKeyInjective | grocery-tracker/components/stores/price-comparison.tsx:55-57 | with brands free of '-', equal keys mean equal brand text and equal generic name |
| PriceComparison.SortedStoresFacts | grocery-tracker/components/stores/price-comparison.tsx:59-61 | the sorted copy is a permutation of the stores, ascending by average price |
| PriceComparison.SummarizeFacts | grocery-tracker/components/stores/price-comparison.tsx:59-64 | cheapest and most expensive are stores of the item with the lowest and highest average; the saving is their difference, never negative, and its note (over $0.50) shows only with two stores or more |
| PriceComparison.Rows | grocery-tracker/components/stores/price-comparison.tsx:134-137 | one row per sorted store |
| PriceComparison.RowsFacts | grocery-tracker/components/stores/price-comparison.tsx:133-180 | only row 0 says BEST PRICE; only the last says Most Expensive and only with more than two stores; no store is below the cheapest; '+$' shows exactly for dearer stores |
| PriceComparison.TitleFacts | grocery-tracker/components/stores/price-comparison.tsx:80-92 | without brand or variant the title is the capitalised generic name; its length is that of its parts |
| PriceComparison.Show | grocery-tracker/components/stores/price-comparison.tsx:32-64 | an empty list shows the placeholder; a list holding an item with no stores throws (it reads `avg_price` of `undefined`); otherwise one summary per item, in order, each the item's own summary |
| Doubles.Divide | grocery-tracker/components/stores/store-category-breakdown.tsx:88 | a division by a non-zero number is finite and inverts multiplication; by zero it is +Infinity exactly for a positive dividend, -Infinity exactly for a negative one and NaN exactly for 0 |
| StoreTrend.MaxTotal | grocery-tracker/components/stores/store-spending-trend.tsx:57 | the maximum is the total of some entry and no entry exceeds it |
| StoreTrend.MinTotal | grocery-tracker/components/stores/store-spending-trend.tsx:58 | the minimum is the total of some entry and no entry is below it |
| StoreTrend.CopiesIsProduct | grocery-tracker/components/stores/store-spending-trend.tsx:56 | adding `n` copies of a value is `n` times it |
| StoreTrend.SumBetween | grocery-tracker/components/stores/store-spending-trend.tsx:55-56 | a sum lies between the count times the lowest term and the count times the highest |
| StoreTrend.MinAvgMax | grocery-tracker/components/stores/store-spending-trend.tsx:55-58 | for non-empty data the lowest spend is at most the average, which is at most the highest |
| StoreTrend.Bounds | grocery-tracker/components/stores/store-spending-trend.tsx:56 | an average of values within bounds is within them |
| StoreTrend.ChartData | grocery-tracker/components/stores/store-spending-trend.tsx:49-52 | one chart row per entry, same order, date and total |
| StoreTrend.TrendFacts | grocery-tracker/components/stores/store-spending-trend.tsx:114-130 | three visits or fewer show no insight (with exactly three the earlier average falls back to the recent one); otherwise the trend rises exactly when the change is over +5 percent and falls exactly when it is under -5 percent |
| StoreTrend.RiseAndFallExclusive | grocery-tracker/components/stores/store-spending-trend.tsx:127-128 | a rise and a fall never show together |
| StoreTrend.TrendAgainstPositive | grocery-tracker/components/stores/store-spending-trend.tsx:126-128 | against a positive earlier average the trend rises exactly when the recent average is over 105 percent of it and falls exactly under 95 percent |
| StoreTrend.Quotient | grocery-tracker/components/stores/store-spending-trend.tsx:126 | dividing by a positive number keeps comparisons with a scaled bound |
| StoreTrend.Scale | grocery-tracker/components/stores/store-spending-trend.tsx:126 | multiplying by a positive number keeps comparisons |
| StoreTrend.TrendAgainstZero | grocery-tracker/components/stores/store-spending-trend.tsx:121-128 | against an earlier average of 0 the change is infinite: a positive recent average reads as a rise and a negative one as a fall |
| StoreTrend.Render | grocery-tracker/components/stores/store-spending-trend.tsx:36-52 | empty data shows the placeholder only; otherwise the chart rows and the insight |
| CategoryBreakdown.FirstAt | grocery-tracker/components/stores/store-category-breakdown.tsx:50 | the first position of a character, or the end |
| CategoryBreakdown.ReplaceFirst | grocery-tracker/components/stores/store-category-breakdown.tsx:50 | replacing a one-character pattern changes only its first occurrence and keeps the length |
| CategoryBreakdown.LabelFacts | grocery-tracker/components/stores/store-category-breakdown.tsx:46-51 | the label is as long as the category, its first character upper-cased, and after that only the first '-' becomes a space |
| CategoryBreakdown.LabelWithoutDash | grocery-tracker/components/stores/store-category-breakdown.tsx:46-51 | a category without '-' only gets its first letter upper-cased |
| CategoryBreakdown.ColorAt | grocery-tracker/components/stores/store-category-breakdown.tsx:77 | every row colour is in the palette |
| CategoryBreakdown.ColorFacts | grocery-tracker/components/stores/store-category-breakdown.tsx:77 | colours repeat every nine rows, and nine consecutive rows never share one |
| CategoryBreakdown.Render | grocery-tracker/components/stores/store-category-breakdown.tsx:34-98 | empty data shows the placeholder; otherwise one row per entry in order, with the sum as total and the colour and share of its position |
| CategoryBreakdown.PercentSum | grocery-tracker/components/stores/store-category-breakdown.tsx:88 | the percentages add up to the sum over the total, times 100 |
| CategoryBreakdown.DivAdd | grocery-tracker/components/stores/store-category-breakdown.tsx:88 | percentages of a common total add |
| CategoryBreakdown.SharesSumTo100 | grocery-tracker/components/stores/store-category-breakdown.tsx:54-88 | with a non-zero total every row shows a share and the shares add up to 100 |
| CategoryBreakdown.WholeIs100 | grocery-tracker/components/stores/store-category-breakdown.tsx:88 | the whole is 100 percent of itself |
| CategoryBreakdown.ZeroTotalShares | grocery-tracker/components/stores/store-category-breakdown.tsx:88 | with a total of 0 a positive entry's share is +Infinity, a negative one's -Infinity and a zero entry's NaN, each exactly in that case |
| Autocomplete.MatchesFacts | grocery-tracker/components/ui/autocomplete-input.tsx:44-46 | the matches are exactly the suggestions containing the value, ignoring case, and no more than the suggestions |
| Autocomplete.MatchesAppend | grocery-tracker/components/ui/autocomplete-input.tsx:44-46 | filtering a concatenation is concatenating the filtered parts |
| Autocomplete.Field.constructor | grocery-tracker/components/ui/autocomplete-input.tsx:33-36 | a new field is closed, lists nothing and highlights nothing |
| Autocomplete.Field.Recompute | grocery-tracker/components/ui/autocomplete-input.tsx:40-52 | the effect lists exactly what the settled state demands (the matches after interaction with a non-blank value), opens exactly when that is non-empty, and clears the highlight |
| Autocomplete.Field.SetSuggestions | grocery-tracker/components/ui/autocomplete-input.tsx:40-52 | new suggestions rerun the effect |
| Autocomplete.Field.KeyDown | grocery-tracker/components/ui/autocomplete-input.tsx:70-97 | closed: nothing changes; the arrows move the highlight within [-1, length-1] and leave the value, the list and the interaction flag as they were; Enter on a row emits it and closes, Enter with nothing highlighted changes nothing; Escape closes; other keys change nothing |
| Autocomplete.Field.Select | grocery-tracker/components/ui/autocomplete-input.tsx:99-103 | a clicked suggestion is emitted and the list closes |
| Autocomplete.Field.Focus | grocery-tracker/components/ui/autocomplete-input.tsx:105-117 | focus marks interaction and opens exactly when the value is non-blank and some suggestion matches; a first focus reruns the filter effect, so the highlight is reset to -1, while a repeated focus keeps the highlight and the list |
| Autocomplete.Field.ClickOutside | grocery-tracker/components/ui/autocomplete-input.tsx:55-68 | a press outside the field closes the list, forgets the interaction and clears the highlight, keeping the value |
| Autocomplete.Field.Change | grocery-tracker/components/ui/autocomplete-input.tsx:119-122 | the text is reported lower-cased and becomes the value, and the list holds the matches of a non-blank value; when neither the value nor the interaction flag changes the list, its openness and the highlight stay, otherwise the highlight is cleared |
| Autocomplete.SettledListFacts | grocery-tracker/components/ui/autocomplete-input.tsx:40-52 | a settled list is non-empty only after interaction with a non-blank value, and then holds exactly the matching suggestions |
| TopItems.Dataset | grocery-tracker/components/analytics/top-items-grouped.tsx:57-63 | 'brand', 'generic' and 'none' select the brand groups, the generic groups and the ungrouped items, row for row |
| TopItems.Toggle | grocery-tracker/components/analytics/top-items-grouped.tsx:103-111 | a click toggles only rows with more than one sub-item; it opens a closed row and closes the open one |
| TopItems.ToggleTwice | grocery-tracker/components/analytics/top-items-grouped.tsx:103-111 | two clicks on the same expandable row return to where they started |
| TopItems.Render | grocery-tracker/components/analytics/top-items-grouped.tsx:65-95 | an empty list shows the placeholder; otherwise at most ten rows |
| TopItems.RenderFacts | grocery-tracker/components/analytics/top-items-grouped.tsx:95-162 | the first ten rows show in order ranked from 1, and only the expanded row shows its own breakdown |
| TopItems.OneRowOpen | grocery-tracker/components/analytics/top-items-grouped.tsx:103-162 | with distinct names at most one row is open |
| TopItems.PageListsDistinct | grocery-tracker/components/analytics/top-items-grouped.tsx:57-63 | each list the analytics page computes has distinct names |
| TopItems.Card.constructor | grocery-tracker/components/analytics/top-items-grouped.tsx:41-44 | grouping starts by generic name with nothing expanded |
| TopItems.Card.SetGroupBy | grocery-tracker/components/analytics/top-items-grouped.tsx:82-85 | choosing a grouping collapses the expanded row |
| TopItems.Card.Click | grocery-tracker/components/analytics/top-items-grouped.tsx:103-111 | a click applies the toggle rule and keeps the grouping |
| ItemSuggestions.BelowIrreflexive | grocery-tracker/lib/hooks/use-item-suggestions.ts:46-50 | no text sorts before itself |
| ItemSuggestions.BelowTransitive | grocery-tracker/lib/hooks/use-item-suggestions.ts:46-50 | the default string order is transitive |
| ItemSuggestions.BelowTotal | grocery-tracker/lib/hooks/use-item-suggestions.ts:46-50 | two different texts are ordered one way or the other |
| ItemSuggestions.BelowAsymmetric | grocery-tracker/lib/hooks/use-item-suggestions.ts:46-50 | two texts are never each before the other |
| ItemSuggestions.Insert | grocery-tracker/lib/hooks/use-item-suggestions.ts:46-50 | insertion adds exactly the one element |
| ItemSuggestions.InsertAscending | grocery-tracker/lib/hooks/use-item-suggestions.ts:46-50 | inserting a new text into an ascending list keeps it ascending |
| ItemSuggestions.Sort | grocery-tracker/lib/hooks/use-item-suggestions.ts:46-50 | sorting is a permutation |
| ItemSuggestions.SortAscending | grocery-tracker/lib/hooks/use-item-suggestions.ts:46-50 | a list without repeats sorts into ascending order |
| ItemSuggestions.ValuesFacts | grocery-tracker/lib/hooks/use-item-suggestions.ts:34-44 | the set contents are without repeats and are exactly the non-empty values of the field |
| ItemSuggestions.ListFacts | grocery-tracker/lib/hooks/use-item-suggestions.ts:34-50 | each list is ascending and holds exactly the distinct non-empty values of its field |
| ItemSuggestions.EveryPresentFieldCounts | grocery-tracker/lib/hooks/use-item-suggestions.ts:41-43 | an item missing one field still contributes its others |
| ItemSuggestions.Collect | grocery-tracker/lib/hooks/use-item-suggestions.ts:36-44 | the forEach builds the three sets' contents |
| ItemSuggestions.Hook.constructor | grocery-tracker/lib/hooks/use-item-suggestions.ts:11-16 | three empty lists, loading |
| ItemSuggestions.Hook.Load | grocery-tracker/lib/hooks/use-item-suggestions.ts:19-57 | without a user or data the lists stay; otherwise each is the sorted distinct values of its field; loading ends either way |
| LinkItems.Plan | grocery-tracker/components/receipts/link-items-dialog.tsx:34-61 | no search exactly when the query is blank and neither brand nor generic name is set; otherwise the query first, then the lower-cased brand, then the lower-cased generic name |
| LinkItems.FindKey | grocery-tracker/components/receipts/link-items-dialog.tsx:70 | the position of the entry stored under a key, or past the end |
| LinkItems.StepKeyed | grocery-tracker/components/receipts/link-items-dialog.tsx:67-79 | the reducer keeps keys distinct and every entry non-empty, counted and under its rows' key |
| LinkItems.StepPlaced | grocery-tracker/components/receipts/link-items-dialog.tsx:67-79 | the reducer puts the new row under its key and keeps earlier rows where they were |
| LinkItems.StepCount | grocery-tracker/components/receipts/link-items-dialog.tsx:77 | each row adds one to the total count |
| LinkItems.LinkGroupsFacts | grocery-tracker/components/receipts/link-items-dialog.tsx:67-81 | every row lands in the entry under its key, keys are distinct, each entry counts its rows, and the counts sum to the row count |
| LinkItems.ValuesOf | grocery-tracker/components/receipts/link-items-dialog.tsx:81 | `Object.values` lists the entries in key insertion order |
| LinkItems.ValuesAdd | grocery-tracker/components/receipts/link-items-dialog.tsx:69-76 | adding a new key appends its entry |
| LinkItems.ValuesUpdate | grocery-tracker/components/receipts/link-items-dialog.tsx:76-77 | updating an existing key replaces its entry in place |
| LinkItems.StepNew | grocery-tracker/components/receipts/link-items-dialog.tsx:69-77 | a row with a new key opens an entry at the end |
| LinkItems.StepExisting | grocery-tracker/components/receipts/link-items-dialog.tsx:76-77 | a row with a stored key joins that entry |
| LinkItems.AddRow | grocery-tracker/components/receipts/link-items-dialog.tsx:68-78 | the reducer body on the keyed object is one step on its values |
| LinkItems.GroupRows | grocery-tracker/components/receipts/link-items-dialog.tsx:67-81 | the reduce over the rows builds `LinkGroups` |
| LinkItems.TargetIsKey | grocery-tracker/components/receipts/link-items-dialog.tsx:244-247 | a click on any entry links to the key it was stored under: its product, or its first row's id |
| LinkItems.OrNull | grocery-tracker/components/receipts/link-items-dialog.tsx:132-133 | an optional prop or null: the prop exactly when it is a non-empty text |
| LinkItems.Create | grocery-tracker/components/receipts/link-items-dialog.tsx:113-155 | a blank trimmed name is rejected with nothing inserted; otherwise a signed-in user inserts the name with brand and generic name or null, and creation succeeds exactly when the insert and the link both do |
| ItemForm.OrNull | grocery-tracker/components/receipts/edit-item.tsx:75-79 | a trimmed field or null: null exactly for a blank text, otherwise the non-empty trimmed text |
| ItemForm.OrNumber | grocery-tracker/components/receipts/edit-item.tsx:80-82 | a parsed field or its fallback: the number unless it is NaN or 0 |
| ItemForm.PayloadFacts | grocery-tracker/components/receipts/edit-item.tsx:74-84 | every optional text column is saved clean, the name as typed; the quantity is never 0 and falls back to 1, the prices to 0, when the field does not parse or parses to 0 |
| ItemForm.CleanRoundTrip | grocery-tracker/components/receipts/edit-item.tsx:75-79 | a clean column shown in a field and saved again is itself |
| EditItem.NumberText | grocery-tracker/components/receipts/edit-item.tsx:50-56 | a number's text or a fallback: the fallback for a missing number, otherwise its printed form when that is non-empty |
| EditItem.FieldsOf | grocery-tracker/components/receipts/edit-item.tsx:42-61 | the form starts from the item's values, '' for missing texts, '1' and '0' for missing numbers, 'other' for no category |
| EditItem.SaveUnedited | grocery-tracker/components/receipts/edit-item.tsx:66-84 | saving an untouched form writes back the item's own values, the quantity 1 when it was missing or 0 and prices 0 when missing |
| EditItem.NumberRoundTrip | grocery-tracker/components/receipts/edit-item.tsx:50-82 | a number shown and parsed back is itself, or the default when it was missing or 0 |
| EditItem.SizeLabel | grocery-tracker/components/receipts/edit-item.tsx:142-148 | the size note shows exactly when size or unit is set, with both parts when both are |
| EditItem.Badge | grocery-tracker/components/receipts/edit-item.tsx:149-163 | a badge shows exactly when its column is set, and it holds the column's words capitalised (capitalizeWords of the column) |
| EditItem.Row | grocery-tracker/components/receipts/edit-item.tsx:142-246 | the row shows the name and sale flag, the size note, the badges, the receipt text when set, a non-zero quantity and a positive unit price |
| EditItem.MatchedShowsEvidence | grocery-tracker/components/receipts/edit-item.tsx:238-239 | a matched row shows the receipt text and at least one of the brand badge, the generic badge or the size note |
| EditItem.Card.constructor | grocery-tracker/components/receipts/edit-item.tsx:42-61 | closed, with the form holding the item's values |
| EditItem.Card.Edit | grocery-tracker/components/receipts/edit-item.tsx:210 | the pencil button opens the form |
| EditItem.Card.SetLinkDialog | grocery-tracker/components/receipts/edit-item.tsx:191 | the link button opens the dialog and closing hides it |
| EditItem.Card.Input | grocery-tracker/components/receipts/edit-item.tsx:273-417 | typing changes only the form |
| EditItem.Card.Save | grocery-tracker/components/receipts/edit-item.tsx:66-97 | the update sends the form's payload; success closes the form; an error shows and keeps it open; saving ends |
| EditItem.Card.Delete | grocery-tracker/components/receipts/edit-item.tsx:99-118 | an unconfirmed delete does nothing; otherwise the error is the delete's, and deleting stays set after success |
| EditItem.Card.Cancel | grocery-tracker/components/receipts/edit-item.tsx:120-134 | cancel puts back the item's own values, clears the error and leaves edit mode |
| AddItem.DefaultsFacts | grocery-tracker/components/receipts/add-item.tsx:30-41 | the defaults cannot be saved as they are, and saving them with a name gives quantity 1 and prices 0 |
| AddItem.Form.constructor | grocery-tracker/components/receipts/add-item.tsx:30-43 | closed, holding the defaults |
| AddItem.Form.Open | grocery-tracker/components/receipts/add-item.tsx:117 | the add button opens the form |
| AddItem.Form.Input | grocery-tracker/components/receipts/add-item.tsx:137-282 | typing changes only the form |
| AddItem.Form.Save | grocery-tracker/components/receipts/add-item.tsx:48-96 | a blank name sets 'Item name is required' and sends nothing; otherwise the payload is inserted, a success resets the form to the defaults and closes it, and a failure shows its error and keeps the form |
| AddItem.Form.Cancel | grocery-tracker/components/receipts/add-item.tsx:98-112 | cancel goes back to the defaults, closes the form and clears the error |
| UploadReceipt.Rejection | grocery-tracker/components/receipts/upload-receipt.tsx:20-29 | a file is refused as not an image exactly when its type lacks the 'image/' prefix, as too large exactly when it is an image over 5 MB, and accepted otherwise |
| UploadReceipt.Extension | grocery-tracker/components/receipts/upload-receipt.tsx:61 | the extension is no longer than the name |
| UploadReceipt.ExtensionShape | grocery-tracker/components/receipts/upload-receipt.tsx:61 | the extension is the name's last characters, none a '.', preceded by a '.' unless it is the whole name |
| UploadReceipt.NoDot | grocery-tracker/components/receipts/upload-receipt.tsx:61 | a text that does not include '.' has no '.' anywhere |
| UploadReceipt.ExtensionFacts | grocery-tracker/components/receipts/upload-receipt.tsx:61 | the extension is the suffix after the last '.', or the whole name when it has none |
| UploadReceipt.ExtensionAfterDot | grocery-tracker/components/receipts/upload-receipt.tsx:61 | whatever comes before the last '.', the extension is what follows it |
| UploadReceipt.DigitChar | grocery-tracker/components/receipts/upload-receipt.tsx:62 | a digit's character is a decimal digit |
| UploadReceipt.Decimal | grocery-tracker/components/receipts/upload-receipt.tsx:62 | a timestamp prints as a non-empty run of decimal digits with no leading zero |
| UploadReceipt.DecimalReadsBack | grocery-tracker/components/receipts/upload-receipt.tsx:62 | the printed digits read back as the timestamp itself |
| UploadReceipt.DecimalInjective | grocery-tracker/components/receipts/upload-receipt.tsx:62 | two different timestamps never print the same |
| UploadReceipt.FileNameFacts | grocery-tracker/components/receipts/upload-receipt.tsx:62 | the stored name starts with the user id and a '/', and keeps the file's extension |
| UploadReceipt.Failure | grocery-tracker/components/receipts/upload-receipt.tsx:54-120 | no failure exactly when every step succeeds; no user gives the login message; a failed parse gives its error or 'Failed to parse receipt' |
| UploadReceipt.Card.constructor | grocery-tracker/components/receipts/upload-receipt.tsx:8-12 | nothing chosen, nothing processing, no error |
| UploadReceipt.Card.Choose | grocery-tracker/components/receipts/upload-receipt.tsx:16-41 | a refused file sets the error and keeps the old file; an accepted one is held and clears the error |
| UploadReceipt.Card.PreviewLoaded | grocery-tracker/components/receipts/upload-receipt.tsx:35-39 | the preview shows the data URL |
| UploadReceipt.Card.Upload | grocery-tracker/components/receipts/upload-receipt.tsx:43-122 | without a file nothing changes; otherwise the error is that of the first failing step, a failure keeps file and preview, success clears both, and nothing is processing afterwards once a user was found |
| UploadReceipt.SizeBoundary | grocery-tracker/components/receipts/upload-receipt.tsx:26-29 | exactly 5 MB is accepted and one byte more is refused |
| Text.Lower | grocery-tracker/components/ui/autocomplete-input.tsx:45 | lower-casing keeps the length |
| Text.Trim | grocery-tracker/lib/receipt-matching.ts:26-27 | the result is the text with a run of whitespace removed at each end and the middle kept as it is, and it has no whitespace at either end |
| Text.TrimEmptyIffBlank | grocery-tracker/components/receipts/add-item.tsx:49-52 | a text trims to empty exactly when it is blank |
| Text.TrimOfTrimmed | grocery-tracker/components/receipts/edit-item.tsx:75-79 | a text without surrounding whitespace is its own trim |
| Text.IndexOf | grocery-tracker/app/api/delete-receipt/route.ts:44 | the first occurrence of a pattern, none exactly when it does not occur |
| Text.Split | grocery-tracker/app/api/delete-receipt/route.ts:44 | there is at least one piece and no piece holds the separator |
| Text.JoinSplit | grocery-tracker/app/api/delete-receipt/route.ts:44 | joining the pieces with the separator gives back the text |
| Text.SplitSecond | grocery-tracker/app/api/delete-receipt/route.ts:44-46 | there is a second piece exactly when the separator occurs, and it is the text after the first one up to the next |
| Text.CapitalizeOrEmpty | grocery-tracker/components/receipts/edit-item.tsx:32-39 | a missing or empty text gives '', and a set text gives capitalizeWords of it, of the same length |
| Text.JoinCapitalizedSplit | grocery-tracker/components/analytics/top-items-grouped.tsx:28-34 | splitting on spaces, upper-casing each word's first character and joining again upper-cases exactly the word starts |
| Text.CapitalizeWordsCharwise | grocery-tracker/components/analytics/top-items-grouped.tsx:28-34 | capitalizeWords upper-cases each word's first character and lower-cases the rest |
| Text.CapitalizeWordsLength | grocery-tracker/components/analytics/top-items-grouped.tsx:28-34 | capitalizeWords keeps the length |
| Text.CapitalizeWordsSpaces | grocery-tracker/components/analytics/top-items-grouped.tsx:28-34 | capitalizeWords keeps every space where it was and adds none |
| Text.CapitalizeWordsIdempotent | grocery-tracker/components/analytics/top-items-grouped.tsx:28-34 | applying capitalizeWords twice is applying it once |
| Text.SplitCharCount | grocery-tracker/components/analytics/top-items-grouped.tsx:28-34 | splitting on one character gives one more piece than its occurrences |
| Text.CapitalizeWordsWordCount | grocery-tracker/components/analytics/top-items-grouped.tsx:28-34 | capitalizeWords keeps the number of space-separated words |
| Records.TextOr | grocery-tracker/app/analytics/page.tsx:45 | a nullable text column or its fallback: the text exactly when it is non-empty |
| Records.AmountOf | grocery-tracker/app/stores/page.tsx:39 | a nullable amount or 0 |
| Grouping.GroupByRepresents | grocery-tracker/app/analytics/page.tsx:85-93 | the group-by holds each key once, in first-seen order, each group the rows with its key |
| Grouping.TallyFacts | grocery-tracker/app/analytics/page.tsx:85-93 | each tally counts and sums exactly the rows of its key, under distinct keys, covering every row |
| Grouping.TallySums | grocery-tracker/app/analytics/page.tsx:85-93 | tally counts add up to the number of rows and totals to the whole sum |
| Grouping.TallyBy | grocery-tracker/app/analytics/page.tsx:85-93 | the reduce that bumps or appends an entry builds the tallies of the grouping |
| Grouping.NestedFacts | grocery-tracker/app/analytics/page.tsx:130-166 | each nested entry counts and sums its rows, and its sub-tallies add up to it under distinct names |
| Grouping.NestedTallyBy | grocery-tracker/app/analytics/page.tsx:130-166 | the nested reduce builds the nested tallies of the grouping |
| Grouping.NestedTalliesPlace | grocery-tracker/app/analytics/page.tsx:147-163 | adding a row to its group is one nested reduce step on the entries |
| Sorting.SortDescSorted | grocery-tracker/app/analytics/page.tsx:99 | the sort orders by key descending |
| Sorting.SortDescMembers | grocery-tracker/app/analytics/page.tsx:99 | sorting is a permutation |
| Sorting.SortDescSum | grocery-tracker/app/analytics/page.tsx:112 | sorting keeps every sum |
| Sorting.SortDescDistinct | grocery-tracker/app/analytics/page.tsx:99 | sorting keeps keys distinct |
| Sorting.InsertSorted | grocery-tracker/app/analytics/page.tsx:99 | inserting into a sorted list keeps it sorted |
| Sorting.TakeSorted | grocery-tracker/app/analytics/page.tsx:100 | a slice of a sorted list is sorted |
| Sorting.TakeDistinct | grocery-tracker/app/analytics/page.tsx:100 | a slice of a list with distinct keys has distinct keys |
| Seqs.SumOfAppend | grocery-tracker/app/analytics/page.tsx:37-41 | a sum over a concatenation is the sum of the sums |
| Seqs.FilterSplits | grocery-tracker/app/admin/api-logs/page.tsx:39-42 | the successes and the failures together are all the logs |
| Grouping.TalliesGroupByStep | grocery-tracker/app/analytics/page.tsx:87-94 | the tallies after one more row are one reduce step on the tallies before it |
| Grouping.StepCount | grocery-tracker/app/analytics/page.tsx:92-93 | each reduce step adds one to the counts and the row's amount to the totals |
| Grouping.StepAt | grocery-tracker/app/analytics/page.tsx:89-93 | a row whose key is already there bumps that entry in place |
| Grouping.StepNew | grocery-tracker/app/analytics/page.tsx:89-93 | a row with a new key appends an entry holding just that row |
| Grouping.StepInPlace | grocery-tracker/app/analytics/page.tsx:87-94 | the reducer body on the accumulator is one reduce step |
| Grouping.NestedGroupByStep | grocery-tracker/app/analytics/page.tsx:134-164 | the nested entries after one more row are one nested reduce step on those before |
| Grouping.NestedStepAt | grocery-tracker/app/analytics/page.tsx:147-163 | a row of a known key adds to that entry's total and count, and to its sub-item under the row's name |
| Grouping.NestedStepNew | grocery-tracker/app/analytics/page.tsx:136-162 | a row of a new key appends an entry holding just that row as its one sub-item |
| Grouping.NestedStepInPlace | grocery-tracker/app/analytics/page.tsx:134-164 | the nested reducer body, with its `find` over sub-items, is one nested reduce step |
| Sorting.SortDesc | grocery-tracker/app/analytics/page.tsx:98 | sorting keeps the length and is a permutation |
| Seqs.Take | grocery-tracker/app/analytics/page.tsx:99 | `slice(0, n)` is a prefix of length n, or the whole list when it is shorter |
| Seqs.Filter | grocery-tracker/app/admin/api-logs/page.tsx:39-43 | a filter keeps exactly the elements that pass, and is no longer than the list |

## Left out

- **Collaborators.** Network, database, auth, storage, OpenAI and `fetch` calls are not executed. Each call is a parameter carrying its outcome. The prompt text and model settings of the OpenAI call (`app/api/parse-receipt/route.ts:59-169`) are not modelled.
- **Page queries.** The queries' filters, `order`, `limit(100)`, `limit(10)` and `ilike` patterns are not modelled. Their results are inputs. `LinkItems.Plan` states only which query the dialog builds.
- **React scheduling.** Asynchronous state updates, effects and re-renders are not modelled. Each handler is one atomic method on the component's class. The `saving`, `uploading`, `loading` and `linking` flags hold only their final values. The link dialog's 300 ms debounce is not modelled.
- **Markup.** JSX layout, CSS classes other than the active-link rule, icons, disabled buttons and `router.refresh()` are not modelled. In an item row, `{item.quantity && …}` and `{item.unit_price && …}` (`components/receipts/edit-item.tsx:172-173`) render a bare `0` for a value of 0; `EditItem.Row` shows no quantity or unit price there.
- **Number formatting.** Floating point, `toFixed` and number formatting are not modelled: amounts are exact reals. The percentages, averages and the 20 % sale saving are exact.
- **String units.** JavaScript strings are sequences of UTF-16 code units; a Dafny `char` is a Unicode scalar value. A character outside the Basic Multilingual Plane, such as an emoji, counts as two units in the source and one in the model. This affects:
  - `sort()` on strings, which compares code units, while the model compares characters by code;
  - `.length`, indexing and `substring`, hence the lengths and the edit-distance ratio of `lib/receipt-matching.ts:36-74`, and the 1000-character preview and the 500-character error detail.

  Lower/upper case covers ASCII letters only.
- **Keys inherited by objects.** A `{}` accumulator already answers keys that `Object.prototype` provides: "constructor", "toString", "valueOf", "hasOwnProperty", "__proto__" and the like. A store, category, date, brand, generic name, item name or product id spelled like one of these is never fresh in the source, and the model does not capture what follows:
  - on the stores page (app/stores/page.tsx:31-41), `!acc[storeName]` is false, so `acc[storeName].receipts.push` throws and the page fails, while `Stores.CollectStats` gives a card;
  - in spending by store (app/analytics/page.tsx:89-93), the updates land on the inherited function and `Object.entries` drops the store, while the model shows a row;
  - in the `(acc[k] || 0) + x` sums (app/analytics/page.tsx:46, 57, 107, 121), the addition starts from the inherited function and yields a string, while the model adds numbers;
  - in the brand and generic groupings (app/analytics/page.tsx:136-151), `acc[key].items.find` throws, and the link dialog's grouping (components/receipts/link-items-dialog.tsx:67-79) fails the same way.

  The model treats every key as an own, fresh property, which is what a `Map` or an object without a prototype would give.
- **Key order of objects.** `Object.entries` and `Object.values` list keys that are array indices (such as a store named "711" or an item named "7") first, in ascending numeric order, and only then the other keys in insertion order. The model keeps every key in insertion order. Since the later sorts are stable, this can change the order of ties in the analytics lists, on the stores page and in the link dialog's groups.
- **Dates.** `new Date(...).getTime()` and `toISOString()` are functions passed in. Invalid dates are not modelled.
- **The reply's JSON.** `JSON.parse` is a parameter returning a JSON value or failure. The clean-up regular expressions are modelled character by character.
- **The price-comparison expand toggle** (`components/stores/price-comparison.tsx:72-76`) is not modelled. It reads the undefined name `setIsExpanded`, so it is not well-formed code.
- **The link dialog's `handleLinkToExisting`** (`components/receipts/link-items-dialog.tsx:94-111`) is one update followed by a refresh. Only the id it sends is modelled, by `LinkItems.TargetIsKey`.
- **FileReader.** Its asynchronous read is split: `UploadReceipt.Card.Choose` accepts the file and `UploadReceipt.Card.PreviewLoaded` stores the data URL.
- StoreTrend.MinAvgMax: it does not state `avg * visits == total`; only the ordering min ≤ avg ≤ max is proved.
- Stores.CardOf: the source divides by `visitCount`, which is never 0 for a grouped store. The contract states the average only when the count is positive.
- UploadReceipt.Extension: it is defined directly as the text after the last `.`, not through `split('.').pop()`. `ExtensionAfterDot` and `ExtensionFacts` show it gives the same text.
