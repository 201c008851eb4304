# hookah-app mix rules in Dafny

This project models the rules of a hookah-lounge Telegram Web App. Guests compose tobacco
mixes out of flavors from several brands. They like, dislike and order mixes for their
table, and browse flavors and their own activity.

The modelled core has two halves: the server's mix rules and a set of small client-side
helpers.

Server (`index.js`):
- the validation of `POST /api/mixes`: required fields, percentages summing to exactly 100,
  and the slug built from the name and the creation time;
- the mapping of an accepted request onto a stored mix;
- `POST /api/mixes/:id/action`: an order appends a row; a like or dislike is upserted on
  (user, mix, type) and then bumps its counter;
- the `sort` parameter of the mix list;
- the `where` filter of the flavor list.

Client:
- the ingredient editor of the mix-creation screen;
- the flavor filter;
- Russian plural selection and label lookups;
- tag toggling;
- the active item of the navigation bar;
- the mix card;
- the profile's counters and captions;
- the onboarding tour.

The database is an in-memory value `MixStore.Store`. It holds a map of mixes, the sequence
of action rows, and the next ids. Each endpoint is a step function on it, returning the new
store and a reply (201, 400 with its message, or 500). The class `MixStore.MixService`
holds the same state in fields; its methods are proved equal to the step functions. The
React components that keep state (the mix editor, the onboarding tour) are classes whose
methods update their fields.

JavaScript semantics are written out where the code depends on them:
- truthiness: `undefined`, `null`, `""` and `0` are falsy;
- the `%` that truncates toward zero (`Helpers.JsRem`);
- `splice` with negative or out-of-range indexes;
- `parseInt`: leading whitespace, sign, `0x`, and `NaN`;
- the `\s` class of regular expressions;
- `toLowerCase` on the Latin, Latin-1, Greek and basic Cyrillic capitals.

`Date.now()` is the parameter `now`.

Modules:

| module | file | models |
|---|---|---|
| `Wrappers` | wrappers.dfy | `Option` |
| `Text` | text.dfy | whitespace, lowercasing, `includes`, decimal rendering |
| `Catalog` | catalog.dfy | brands and flavors as the client receives them |
| `MixRules` | mix_rules.dfy | the pure rules of `index.js` |
| `MixStore` | mix_store.dfy | the two POST endpoints on a store |
| `CreateMix` | create_mix.dfy | `CreateMix.jsx` |
| `Flavors` | flavors.dfy | `Flavors.jsx` |
| `Helpers` | helpers.dfy | `helpers.js` |
| `TagFilter` | tag_filter.dfy | `TagFilter.jsx` |
| `Navbar` | navbar.dfy | `Navbar.jsx` |
| `MixCard` | mix_card.dfy | `MixCard.jsx` |
| `Profile` | profile.dfy | `Profile.jsx` |
| `Onboarding` | onboarding.dfy | `Onboarding.jsx` |

## Model

| member | source | states |
|---|---|---|
| MixRules.ValidateCreate | index.js:485-510 | A request is rejected for missing fields exactly when the name, the author id or the ingredient list is absent or empty. It is rejected for its percentages exactly when the fields are present and the sum is not 100. Otherwise the draft carries the name, author, description, the slug of the name and time, the strength or `MEDIUM`, and one row per input entry in input order with the same flavor id and percentage |
| MixRules.AcceptedSumsTo100 | index.js:490-493 | The stored ingredients of every accepted mix sum to exactly 100 |
| MixRules.PercentSumAppend | index.js:490 | The `reduce` sum of a concatenation is the sum of the parts |
| MixRules.PercentSumBounds | index.js:490 | When every percentage is at least 1 the sum is at least the number of entries, so a mix summing to 100 has at most 100 ingredients |
| MixRules.RowSumToRows | index.js:506-509 | The rows keep the percentages, so their sum equals the request's sum |
| MixRules.ToRows | index.js:506-509 | One row per input entry, in order, with the same flavor id and percentage |
| MixRules.StrengthOrDefault | index.js:504 | The requested strength when present and non-empty, else `MEDIUM` |
| MixRules.Slug | index.js:496 | The slug contains no whitespace |
| MixRules.SlugDistinguishesTimes | index.js:496 | The same name at two different times gives two different slugs |
| MixRules.Hyphenate | index.js:496 | Replacing each whitespace run by one hyphen leaves no whitespace |
| MixRules.HyphenateKeepsSpaceFree | index.js:496 | A string without whitespace is left as it is |
| MixRules.HyphenateRun | index.js:496 | A run of whitespace becomes a single hyphen |
| MixRules.HyphenateConcat | index.js:496 | Hyphenation distributes over a concatenation whose cut does not fall inside a whitespace run |
| MixRules.HyphenateConcatSpaceHead | index.js:496 | The same distribution when the left part starts with whitespace, its leading run becoming one hyphen |
| MixRules.HyphenateConcatAllSpaceTail | index.js:496 | When the left part is one whitespace run and the cut does not fall inside a run, the run is skipped entirely and the right part follows unchanged |
| MixRules.DropSpacesAllSpace | index.js:496 | Skipping the whitespace of an all-whitespace string leaves nothing |
| MixRules.DropSpacesAppend | index.js:496 | Skipping leading whitespace distributes over a concatenation whose left part has a non-whitespace character |
| MixRules.DropSpacesOfAllSpacePrefix | index.js:496 | A whitespace prefix is skipped entirely |
| MixRules.DropSpacesLast | index.js:496 | A string that is not all whitespace keeps its last character once its leading whitespace is skipped |
| MixRules.SortKeyFor | index.js:377-403 | `new` sorts by creation time, `rating` by rating, and anything else, absence included, by order count; each in both directions |
| MixRules.DigitPrefix | index.js:331 | `parseInt` reads a prefix of the string |
| MixRules.DigitPrefixOfDecimal | index.js:331 | A string of decimal digits is read entirely |
| MixRules.DigitsValueDecimal | index.js:331 | The value read from decimal digits is their decimal value |
| MixRules.ParseIntDigits | index.js:331 | `parseInt` of optionally signed decimal digits gives their value, leading zeros included |
| MixRules.ParseIntRoundTrip | index.js:331 | `parseInt` reads back the decimal rendering of every integer |
| MixRules.DropSpacesSuffix | index.js:331 | Skipping leading whitespace leaves a suffix of the string |
| MixRules.ParseIntNoDigits | index.js:331 | `parseInt` of a string without any decimal digit is NaN, hexadecimal prefix included |
| MixRules.BuildFlavorWhere | index.js:325-340 | The flavor query always asks for available, non-deleted flavors. It adds `brandId` (parsed), the tag and the case-insensitive name search, each only when its parameter is non-empty |
| MixRules.BrandFilterSelectsBrand | index.js:330-332 | With a brand id in decimal, a flavor matches exactly when it is available, not deleted and of that brand |
| MixStore.EmptyStoreValid | index.js:498-510 | The empty store satisfies the invariant: ids below the next id, action ids strictly rising along the log, actions on stored mixes, at most one like or dislike per (user, mix, type) |
| MixStore.CreateMixStep | index.js:480-529 | A mix is created exactly when validation accepts the request; it takes the next id and is the only change, and nothing else is created. A rejection is a 400 and changes nothing |
| MixStore.RecordActionStep | index.js:532-613 | 400 exactly when the user id or the type is missing. 201 exactly for a known type on a stored mix. Any reply other than 201 changes nothing. A 201 keeps the set of mixes and only appends to the action log |
| MixStore.Upsert | index.js:576-590 | The row returned has the key. The log is unchanged exactly when a row with the key exists; otherwise the returned row is appended. Mixes are untouched |
| MixStore.CreateMixKeepsInvariant | index.js:480-529 | Creating a mix keeps the invariant |
| MixStore.CreateMixOutcome | index.js:485-510 | A 400 reply happens exactly on the two validation failures and leaves the store unchanged. A 201 reply adds exactly one mix under a fresh id, with zero counters and the validated draft, and no action |
| MixStore.ActionMissingFieldsRejected | index.js:537-539 | An action without a user id or a type is answered 400 with its message and changes nothing |
| MixStore.OrderAppendsOneRow | index.js:544-559 | An order on a stored mix appends exactly one ORDER row for that user, mix and table. It raises `ordersCount` by exactly one and leaves the like and dislike counters and every other mix unchanged |
| MixStore.RepeatedOrdersAccumulate | index.js:544-559 | Two identical orders give two distinct rows and two more orders |
| MixStore.ReactionBumpsItsCounter | index.js:576-603 | A like or dislike returns a row with its (user, mix, type) key. On a repeat it returns the existing row and adds none; otherwise it appends exactly one. Either way it raises only its own counter, by one. |
| MixStore.RecordActionKeepsInvariant | index.js:532-613 | Recording any action keeps the invariant, in particular at most one like or dislike row per key |
| MixStore.FindRow | index.js:577-583 | The upsert's lookup returns the first row with the key, or none when no row has it |
| MixStore.FindRowFirst | index.js:577-583 | No row before the one found has the key |
| MixStore.FindRowNone | index.js:577-583 | When the lookup finds nothing, no row has the key |
| MixStore.ReactionKind | index.js:593-603 | `LIKE` and `DISLIKE`, and only those, are reactions |
| MixStore.CountRows | index.js:593-603 | The number of rows of a kind for a mix never exceeds the number of rows |
| MixStore.CountRowsAppend | index.js:593-603 | Appending a row raises the count of its own mix and kind by one and no other |
| MixStore.CountRowsAbsent | index.js:498-510 | A mix without rows has a count of zero for every kind |
| MixStore.RepeatLikeOvercounts | index.js:593-603 | As written, two likes of mix 1 by user 42 leave one LIKE row and a like count of 2: the counters stop matching the rows |
| MixStore.RecordActionCorrected | index.js:576-603 | The corrected step gives the same reply and the same action log and mix ids as the step as written; only the counters differ |
| MixStore.CorrectedKeepsCountersExact | index.js:576-603 | When a reaction is counted only if its row is new, every counter stays equal to the number of its rows |
| MixStore.CreateMixKeepsCountersExact | index.js:498-510 | A new mix starts with counters equal to its (zero) rows |
| MixStore.MixService.constructor | index.js:498-510 | The service starts as the empty store and satisfies the invariant |
| MixStore.MixService.FindAction | index.js:577-583 | The loop finds the same row as `FindRow` |
| MixStore.MixService.CreateMix | index.js:480-529 | The new state and reply are those of `CreateMixStep`, and the invariant is kept |
| MixStore.MixService.RecordAction | index.js:532-613 | The new state and reply are those of `RecordActionStep`, and the invariant is kept |
| CreateMix.TotalAppend | frontend/src/pages/CreateMix.jsx:43 | Appending an entry adds its percentage to the total |
| CreateMix.TotalConcat | frontend/src/pages/CreateMix.jsx:43 | The total of a concatenation is the sum of the totals |
| CreateMix.TotalSingle | frontend/src/pages/CreateMix.jsx:43 | The total of one entry is its percentage |
| CreateMix.TotalAround | frontend/src/pages/CreateMix.jsx:43 | The total splits around any entry |
| CreateMix.Total | frontend/src/pages/CreateMix.jsx:43 | 0 for an empty list; with non-negative percentages the total is non-negative and at least each percentage |
| CreateMix.Added | frontend/src/pages/CreateMix.jsx:45-47 | The old list is a prefix of the new one, which holds the flavor. The list grows by one exactly when the flavor was not in it |
| CreateMix.Removed | frontend/src/pages/CreateMix.jsx:52-55 | One entry fewer exactly when the list is non-empty and the index is below its length, else the same length; every remaining entry comes from the list |
| CreateMix.WithPercentage | frontend/src/pages/CreateMix.jsx:58-61 | Same length; the entry at the index has the new percentage and its flavor; every other entry is unchanged |
| CreateMix.CanProceed | frontend/src/pages/CreateMix.jsx:153-156 | When "next" is enabled the list is non-empty and the request body it would send sums to exactly 100 |
| CreateMix.AddedShape | frontend/src/pages/CreateMix.jsx:45-47 | Adding keeps the flavors distinct and leaves the flavor in the list. A known flavor changes nothing. A new flavor is appended as one entry at 20% with the earlier entries unchanged, and the total grows by 20 |
| CreateMix.SpliceStart | frontend/src/pages/CreateMix.jsx:54 | The start index `splice` uses is within the list |
| CreateMix.RemovedShape | frontend/src/pages/CreateMix.jsx:52-55 | Removing a valid index drops exactly that entry: the length falls by one, the entries before and after keep their order, and the total falls by its percentage |
| CreateMix.RemovedDistinct | frontend/src/pages/CreateMix.jsx:52-55 | Removing a valid index keeps the flavors distinct, and the removed flavor is no longer in the list |
| CreateMix.RemovedOtherIndexes | frontend/src/pages/CreateMix.jsx:52-55 | An index at or past the end leaves the list unchanged; a negative index counts from the end; one below minus the length removes the first entry |
| CreateMix.WithPercentageShape | frontend/src/pages/CreateMix.jsx:58-61 | Setting a percentage changes only that entry's percentage: the length, the flavors and every other entry stay, and the total moves by the difference |
| CreateMix.Payload | frontend/src/pages/CreateMix.jsx:71-74 | One `{flavorId, percentage}` per entry, in list order |
| CreateMix.PayloadSum | frontend/src/pages/CreateMix.jsx:71-74 | The payload's sum equals the editor's total |
| CreateMix.Submission | frontend/src/pages/CreateMix.jsx:64-76 | Nothing is sent exactly when the name or the list is empty. Otherwise the request carries the name, the description, the author, no strength, and the payload |
| CreateMix.SubmissionAccepted | frontend/src/pages/CreateMix.jsx:64-76 | A submission with a name, an author and a list that passed the step-1 gate is accepted by the server's validation |
| CreateMix.MixEditor.constructor | frontend/src/pages/CreateMix.jsx:15-20 | The editor starts on step 1 with empty fields and an empty list |
| CreateMix.MixEditor.AddIngredient | frontend/src/pages/CreateMix.jsx:45-50 | The list becomes `Added(list, flavor)`. When the flavor is new, the picker closes and the brand is cleared. The name and description stay |
| CreateMix.MixEditor.RemoveIngredient | frontend/src/pages/CreateMix.jsx:52-56 | The list becomes `Removed(list, index)` and the editor stays valid |
| CreateMix.MixEditor.UpdatePercentage | frontend/src/pages/CreateMix.jsx:58-62 | The list becomes `WithPercentage(list, index, value)` and the editor stays valid |
| CreateMix.MixEditor.Next | frontend/src/pages/CreateMix.jsx:153-156 | Step 2 is reached only from step 1 with a non-empty list totalling exactly 100 |
| CreateMix.MixEditor.Back | frontend/src/pages/CreateMix.jsx:220 | Back returns to step 1 |
| CreateMix.MixEditor.SetName | frontend/src/pages/CreateMix.jsx:232 | Sets the name |
| CreateMix.MixEditor.SetDescription | frontend/src/pages/CreateMix.jsx:242 | Sets the description |
| CreateMix.MixEditor.HandleSubmit | frontend/src/pages/CreateMix.jsx:64-76 | Sends exactly `Submission` of the current name, description, author and list: nothing when the name or the list is empty, else the payload in order. From step 2 the payload sums to 100 |
| Flavors.FilterList | frontend/src/pages/Flavors.jsx:47-67 | Every kept flavor passes the search, brand and tag filters |
| Flavors.Filtered | frontend/src/pages/Flavors.jsx:44-68 | Empty without data; otherwise every shown flavor passes the filters |
| Flavors.Keep | frontend/src/pages/Flavors.jsx:47-67 | With no filter set every flavor passes; with a brand filter only flavors with that brand slug pass |
| Flavors.HasFilters | frontend/src/pages/Flavors.jsx:75 | Some filter is active exactly when the filters are not all empty |
| Flavors.ActiveFiltersSound | frontend/src/pages/Flavors.jsx:49-64 | With a search, every shown flavor's lowercased name or brand name contains the lowercased search. With a tag, its profile contains the tag |
| Flavors.BrandFilterSound | frontend/src/pages/Flavors.jsx:57-59 | With a brand filter, every shown flavor has a brand with that slug |
| Flavors.FilterIsSubsequence | frontend/src/pages/Flavors.jsx:47 | The result is a subsequence of the input, order preserved |
| Flavors.FilterIsComplete | frontend/src/pages/Flavors.jsx:47-67 | Every flavor that passes all filters is shown |
| Flavors.FilterKeepsAll | frontend/src/pages/Flavors.jsx:47-67 | When every flavor passes, the whole list is shown |
| Flavors.NoFiltersShowsAll | frontend/src/pages/Flavors.jsx:75 | Without any filter the result is the input |
| Flavors.Cleared | frontend/src/pages/Flavors.jsx:70-73 | After clearing no filter is active |
| Flavors.ClearShowsAll | frontend/src/pages/Flavors.jsx:70-75 | After clearing the whole list is shown |
| Helpers.JsRem | frontend/src/utils/helpers.js:33-35 | JavaScript `%`: the dividend equals the truncated quotient times the divisor plus the remainder, and the remainder has the dividend's sign and is smaller than the divisor in magnitude; Euclidean on non-negative dividends |
| Helpers.PluralIndex | frontend/src/utils/helpers.js:31-36 | For a count of at least 0 the selected index is 0, 1 or 2 |
| Helpers.Pluralize | frontend/src/utils/helpers.js:30-37 | With at least three words and a count of at least 0, the chosen word is one of the first three |
| Helpers.PluralRules | frontend/src/utils/helpers.js:31-35 | 5..19 after the hundreds gives the third form. Otherwise a last digit of 1 gives the first form, 2..4 the second, and 0 or 5..9 the third |
| Helpers.PluralNegative | frontend/src/utils/helpers.js:31-36 | A negative count selects the third form when it ends in 0 and no form otherwise |
| Helpers.FormatStrength | frontend/src/utils/helpers.js:2-8 | The label of `LIGHT`, `MEDIUM`, `STRONG`; any other input unchanged |
| Helpers.FormatTag | frontend/src/utils/helpers.js:11-27 | The label of the twelve tags; any other input unchanged |
| Helpers.FormatIdempotent | frontend/src/utils/helpers.js:2-27 | Formatting a formatted value changes nothing |
| TagFilter.Without | frontend/src/components/TagFilter.jsx:5 | The filtered selection has no occurrence of the tag and keeps every other element |
| TagFilter.Click | frontend/src/components/TagFilter.jsx:2-12 | A click keeps the mode and flips the clicked tag's highlighted state, in both modes |
| TagFilter.IsSelected | frontend/src/components/TagFilter.jsx:17-19 | Nothing is lit when nothing is selected |
| TagFilter.ClickLeavesOthers | frontend/src/components/TagFilter.jsx:4-7 | In multiple mode, a click leaves every other tag's state as it was |
| TagFilter.ClickKeepsOrderOfOthers | frontend/src/components/TagFilter.jsx:4-7 | In multiple mode, the other tags keep their relative order |
| TagFilter.ClickTwiceRestores | frontend/src/components/TagFilter.jsx:4-7 | Two clicks on an unselected tag restore the selection |
| TagFilter.ClickMultipleShape | frontend/src/components/TagFilter.jsx:4-7 | An unselected tag is appended at the end; a selected one is removed everywhere and the selection shrinks |
| TagFilter.ClickSingle | frontend/src/components/TagFilter.jsx:10 | In single mode, clicking the selected tag clears the selection; any other tag becomes the selection |
| TagFilter.WithoutAbsent | frontend/src/components/TagFilter.jsx:5 | Filtering out an absent tag changes nothing |
| TagFilter.WithoutConcat | frontend/src/components/TagFilter.jsx:5 | Filtering distributes over concatenation |
| TagFilter.WithoutShrinks | frontend/src/components/TagFilter.jsx:5 | Filtering out a present tag shortens the selection |
| TagFilter.WithoutNoLonger | frontend/src/components/TagFilter.jsx:5 | Filtering never lengthens the selection |
| Navbar.IsActive | frontend/src/components/Navbar.jsx:20-21 | The home item is active exactly on `/`; an item is active on its own path; an active item's path is a prefix of the current path |
| Navbar.PrefixesAgree | frontend/src/components/Navbar.jsx:21 | Two prefixes of one path agree where both are defined |
| Navbar.AtMostOneActive | frontend/src/components/Navbar.jsx:5-21 | With the four items, no path makes two items active |
| MixCard.StrengthStyleFor | frontend/src/components/MixCard.jsx:6-14 | The strength's own badge, or the medium badge for any other value |
| MixCard.Rating | frontend/src/components/MixCard.jsx:16 | The rating is positive exactly when likes outnumber dislikes and zero exactly when they are equal |
| MixCard.RatingLabel | frontend/src/components/MixCard.jsx:69 | The label starts with `+` exactly for a positive rating and with `-` exactly for a negative one, and is `0` exactly for zero |
| MixCard.RatingLabelRoundTrip | frontend/src/components/MixCard.jsx:69 | The label determines the rating |
| MixCard.Chips | frontend/src/components/MixCard.jsx:42 | No chips without data; otherwise the first min(3, n) ingredients in order |
| MixCard.Overflow | frontend/src/components/MixCard.jsx:50-52 | The badge appears exactly above three ingredients, and then shows n − 3 |
| MixCard.ChipText | frontend/src/components/MixCard.jsx:47 | A chip starts with the flavor name, or `Вкус` when it is missing or empty, then ` · `; it ends in a digit and `%` |
| MixCard.ChipsAndOverflow | frontend/src/components/MixCard.jsx:42-52 | At most three chips, the first ingredients in order. Above three ingredients there are exactly three chips and a badge of n − 3; otherwise every ingredient is a chip and there is no badge. Chips plus badge count every ingredient |
| MixCard.OrdersShown | frontend/src/components/MixCard.jsx:77 | The order count, 0 when it is missing |
| MixCard.AuthorShown | frontend/src/components/MixCard.jsx:84 | The author's first name when present and non-empty, otherwise the non-empty fallback |
| MixCard.ActionMovesRating | frontend/src/components/MixCard.jsx:16 | After an action on a stored mix the card's rating is one higher for a like and one lower for a dislike, repeats included. It is unchanged after an order |
| Profile.StatsOf | frontend/src/pages/Profile.jsx:31-35 | Likes and orders are the counts of LIKE and ORDER actions, 0 without data, and together never exceed the number of actions; mixes is the number of the user's mixes, 0 without data |
| Profile.CountKind | frontend/src/pages/Profile.jsx:32-33 | A kind's count never exceeds the number of actions |
| Profile.TwoKindsBounded | frontend/src/pages/Profile.jsx:32-33 | The counts of two different kinds together never exceed the number of actions |
| Profile.CountKindAppend | frontend/src/pages/Profile.jsx:32-33 | A new action raises the count of its own kind by one and no other |
| Profile.Recent | frontend/src/pages/Profile.jsx:108 | The first min(5, n) actions in order; none without data |
| Profile.DisplayName | frontend/src/pages/Profile.jsx:28 | The Telegram first name, else the stored first name, else `Гость`; never empty |
| Profile.Username | frontend/src/pages/Profile.jsx:29 | The Telegram username when non-empty, else the stored one when non-empty; absent exactly when neither is non-empty |
| Profile.ActivityTitle | frontend/src/pages/Profile.jsx:123 | The mix name when non-empty, otherwise the non-empty fallback |
| Profile.OrderCaption | frontend/src/pages/Profile.jsx:128 | The table number, or the dash when it is missing or 0 |
| Profile.OrderCaptionShape | frontend/src/pages/Profile.jsx:126-128 | An order's caption always starts with the table caption |
| Profile.ActivityCaption | frontend/src/pages/Profile.jsx:126-128 | The caption is empty exactly for a type other than LIKE, DISLIKE and ORDER |
| Onboarding.FeatureSteps | frontend/src/pages/Onboarding.jsx:53 | Only feature steps are kept |
| Onboarding.CurrentFeatureIndex | frontend/src/pages/Onboarding.jsx:54 | The progress index lies between −1 and the current step, and is at least 0 on a feature step |
| Onboarding.FeaturesAmongFirst | frontend/src/pages/Onboarding.jsx:54 | In a splash-then-features tour, the first k steps hold k-1 features |
| Onboarding.FeatureStepCount | frontend/src/pages/Onboarding.jsx:5-31 | The tour has four feature steps |
| Onboarding.FeatureIndexOfStep | frontend/src/pages/Onboarding.jsx:54 | On step k ≥ 1 the progress index is k-1, within the feature steps |
| Onboarding.OnboardingFlow.constructor | frontend/src/pages/Onboarding.jsx:35-57 | The tour opens on step 0, the splash |
| Onboarding.OnboardingFlow.Continue | frontend/src/pages/Onboarding.jsx:37-45 | Before the last step it advances by one and leaves the flag. At the last step it sets the flag and goes home without advancing. The step stays in range |
| Onboarding.OnboardingFlow.Skip | frontend/src/pages/Onboarding.jsx:47-50 | From any step it sets the flag and goes home |
| Text.LowerChar | index.js:496 | `toLowerCase` on one character: a capital of the folded ranges becomes a non-capital (Latin and Greek by +32, Ѐ..Џ by +80), every other character is unchanged, and whitespace stays whitespace |
| Text.Lower | index.js:496 | Lowercasing keeps the length and works character by character |
| Text.NatToDecimal | index.js:496 | The decimal rendering is non-empty and all digits, one digit exactly below 10 |
| Text.DecimalRoundTrip | index.js:496 | Reading the rendering back gives the number |
| Text.NatToDecimalInjective | index.js:496 | Different numbers render differently |
| Text.IntToDecimal | frontend/src/components/MixCard.jsx:69 | A minus sign exactly for negative numbers, followed by the digits of the magnitude |

## Left out

- The Telegram bot (commands, polling, notifications), the Express middleware and routing, JSON and `BigInt` string conversion, start-up and shutdown. These are I/O around the rules.
- The `console.log` of an order and the read-back of the mix after it. They change nothing.
- The `GET` endpoints other than the mix sort key and the flavor filter. They are reads and joins in the database.
- Atomicity and concurrency: each request is one sequential step on the store.
- The database schema: the store treats an action on an unknown mix id as failing with 500 and changing nothing, as a foreign key would. An unknown action type also fails with 500. The user table and the author foreign key are not modelled.
- MixStore.CreateMixStep: the store holds no flavors, so an ingredient whose `flavorId` names no flavor is accepted with 201, where a foreign key from ingredients to flavors would make the create fail with 500.
- MixRules.ValidateCreate: percentages are integers and are summed exactly. JavaScript sums them as floating-point numbers, so fractional percentages (50.5 and 49.5) and sums beyond 2^53, where rounding changes the result, are not modelled.
- The `rating` column that the mix list sorts on is never written by the modelled code. The model keeps only the sort key.
- `debounce` in helpers.js: timers.
- Text.LowerChar: folds A..Z, À..Þ (not ×), Greek Α..Ω and Cyrillic Ѐ..Я only. Other cased letters (Latin Extended, accented Greek, Armenian, Cyrillic beyond Я, and the special cases of `toLowerCase` such as the final sigma) are left unchanged, so a name using them gets a different slug than the server gives it.
- CreateMix.MixEditor.UpdatePercentage: the percentage is taken as the integer the slider yields. The string-to-integer `parseInt` of the slider value is not repeated. Neither is the shallow copy, which makes the old list share the edited entry object.
- CreateMix.MixEditor: the flavor picker's queries and the brand choice are held as plain fields; the network calls are left out.
- Profile.DisplayName: the upper-cased initial drawn from the name is not modelled.
- Helpers.FormatStrength, Helpers.FormatTag: keys inherited from JavaScript's `Object.prototype` (such as `constructor`) are not modelled as labels.
- MixStore.MixService: the like and dislike counters follow the code as written; the corrected step is a separate function.
- CreateMix.jsx adds each flavor at a fixed 20% and never rebalances; no redistribution, clamp or ingredient cap exists in the code, so none is modelled.

## Findings

| source | as written | input that shows it | evidently intended | confidence | as-written member | corrected member |
|---|---|---|---|---|---|---|
| index.js:593-603 | After the upsert of a LIKE or DISLIKE, the counter is incremented unconditionally, even when the upsert found the existing row | User 42 sends LIKE twice for mix 1: one LIKE row, `likesCount` 2 | The upsert makes a like once per user and mix, so the counter should rise only when the row is new, keeping each counter equal to its rows | not executed | MixStore.RepeatLikeOvercounts | MixStore.CorrectedKeepsCountersExact |
