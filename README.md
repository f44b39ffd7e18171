# MotorTrend onboarding — a verified Dafny model

This project models the logic at the core of the MotorTrend account and onboarding prototype, a React front end. It covers:

- the four-step onboarding wizard: name and location; interests; vehicle ownership; newsletters;
- the welcome page shown after onboarding;
- the membership page and its card, which read the record that onboarding leaves in browser local storage;
- the profile banner's initials;
- the profile-completion card;
- the 1-to-10 star rating modal;
- the vehicle-search autocomplete;
- the vehicle picture lookup;
- the header's responsive "More" menu;
- the join-date helpers.

Each React component becomes a Dafny `class`. Its `useState` hooks become fields, and its event handlers become methods. Every method's contract states the new state as a function of the old state. Callback props become events returned by the method: `Option<Step1Event>` is "the callback fired with this payload" or "nothing fired". Navigation is the route string returned. The derivations that compute what is shown are pure functions, with lemmas about them. These derivations are the progress percentage, suggestions, initials, the layout split, date parsing and the picture lookup.

Helper modules model the JavaScript built-ins the source relies on, on the inputs the source gives them. The limits of these models are listed under "Left out": case mapping is ASCII only, `Number` reads integer text only, and strings are sequences of code points rather than UTF-16 units.

- `JsString`: `toLowerCase`/`toUpperCase` on ASCII, `includes`, `trim`, `split` on a one-character separator, `join`, integer rendering, and `Number(...)` for integer text.
- `Json`: JSON values, truthiness and the logical-or operator, property access on `null` throwing, and object spread of strings, arrays and scalars. It also holds a `LocalStorage` class over a map of keys to stored values.
- `Selection`: the "toggle membership" idiom (`includes ? filter : [...prev, x]`) used in three components.
- `Wrappers`: `Option`.
- `ProfileTypes`: ownership, vehicle, avatar and route constants.

## Behaviour of the code worth noting

- The profile-completion card does not itself read or write the stored profile. Each save only calls its `onUpdateStepN` callback and collapses the form.
- The completion flags are a prop of the card.
- Onboarding step 4 ignores its props: the selection starts empty, and it navigates directly. It writes its selection under `newsletters`, but the membership page reads `newsletter`, so the choice never reaches the card. `Membership.OnboardingNewslettersNotShown` proves this.
- A stored `null` record crashes the membership page. The state updater passed to `setUserData` reads `data.name`, and React runs that updater later, outside the `try`/`catch`. No error boundary catches the throw. `Membership.Loaded` gives `Crashed` in this case, and `MembershipPage.LoadFromStorage` sets `crashed`.
- `parseJoinDate` returns `null` only for too few pieces or a non-number. It accepts month 13, February 30 and `"//"`, because the `Date` constructor carries the excess. The lemmas `ParseMonthThirteen` and `DayOverflow` state this.

## Model

| member | source | states |
|---|---|---|
| VehicleSearch.MatchingCars | src/components/VehicleSearch/VehicleSearch.tsx:261-262 | every result is a database entry matching case-insensitively, and every matching entry is in the result |
| VehicleSearch.Suggestions | src/components/VehicleSearch/VehicleSearch.tsx:259-271 | at most 6 entries, all matching database entries; an empty query gives no suggestions |
| VehicleSearch.Kept | src/components/VehicleSearch/VehicleSearch.tsx:261-262 | the filter keeps an entry exactly when it matches |
| VehicleSearch.MatchingCarsSnoc | src/components/VehicleSearch/VehicleSearch.tsx:261-262 | one more entry at the end adds what the filter keeps of it |
| VehicleSearch.MatchingCarsConcat | src/components/VehicleSearch/VehicleSearch.tsx:261-262 | filtering distributes over concatenation, so database order is kept |
| VehicleSearch.SuggestionsAreFirstMatches | src/components/VehicleSearch/VehicleSearch.tsx:261-263 | for a non-empty query the suggestions are exactly the first min(6, #matches) matches in order; with fewer than 6 shown, every match is shown |
| VehicleSearch.SingleMatch | src/components/VehicleSearch/VehicleSearch.tsx:261-263 | a matching entry in a one-entry database is suggested |
| VehicleSearch.ArrowDownIndex | src/components/VehicleSearch/VehicleSearch.tsx:302-304 | the highlight moves down by one or stays, and stays within [-1, count-1] |
| VehicleSearch.ArrowUpIndex | src/components/VehicleSearch/VehicleSearch.tsx:308 | the highlight moves up by one from a highlighted entry, and from the first entry or no highlight it is -1 |
| VehicleSearch.ArrowsStayInRange | src/components/VehicleSearch/VehicleSearch.tsx:298-321 | any sequence of arrow keys keeps the highlight within [-1, count-1] |
| VehicleSearch.ArrowDownSaturates | src/components/VehicleSearch/VehicleSearch.tsx:302-304 | n ArrowDown presses reach start+n, clamped at the last suggestion |
| VehicleSearch.Autocomplete.constructor | src/components/VehicleSearch/VehicleSearch.tsx:251-254 | empty query, no suggestions, closed, highlight -1 |
| VehicleSearch.Autocomplete.RunFilterEffect | src/components/VehicleSearch/VehicleSearch.tsx:259-271 | suggestions recomputed for the query, open iff the query is non-empty, highlight reset |
| VehicleSearch.Autocomplete.Type | src/components/VehicleSearch/VehicleSearch.tsx:287-290 | the query becomes the typed value; the effect runs only when the value changed |
| VehicleSearch.Autocomplete.Select | src/components/VehicleSearch/VehicleSearch.tsx:292-296 | emits the car as owned, clears the query and closes the dropdown |
| VehicleSearch.Autocomplete.Click | src/components/VehicleSearch/VehicleSearch.tsx:348 | clicking suggestion i emits that suggestion and clears everything |
| VehicleSearch.Autocomplete.MouseEnter | src/components/VehicleSearch/VehicleSearch.tsx:349 | hovering suggestion i highlights i |
| VehicleSearch.Autocomplete.Focus | src/components/VehicleSearch/VehicleSearch.tsx:333 | focus opens the dropdown only for a non-empty query |
| VehicleSearch.Autocomplete.Close | src/components/VehicleSearch/VehicleSearch.tsx:274-285 | a pointer-down outside closes the dropdown |
| VehicleSearch.Autocomplete.KeyDown | src/components/VehicleSearch/VehicleSearch.tsx:298-321 | each key's effect; Enter selects only a highlighted, non-empty suggestion, otherwise nothing changes |
| ProfileCompletionCard.CompletedCount | src/components/ProfileCompletionCard/ProfileCompletionCard.tsx:49-56 | the count equals CompletedAmong over all four steps; at most 4; 4 iff every step is completed, 0 iff none is |
| ProfileCompletionCard.CompletedAmong | src/components/ProfileCompletionCard/ProfileCompletionCard.tsx:49-56 | the number of completed steps among the first k, counted one flag at a time (the reference count) |
| ProfileCompletionCard.ProgressPercentage | src/components/ProfileCompletionCard/ProfileCompletionCard.tsx:57-58 | percentage × 4 = completed × 100, and it is at most 100 |
| ProfileCompletionCard.ShownProgress | src/components/ProfileCompletionCard/ProfileCompletionCard.tsx:58-63 | whenever the card renders, the progress is 0, 25, 50 or 75 |
| ProfileCompletionCard.CompletingAStep | src/components/ProfileCompletionCard/ProfileCompletionCard.tsx:56-58 | completing any one not-yet-completed step raises the count by exactly one and the percentage by exactly 25 points |
| ProfileCompletionCard.MarkCompleted | src/components/ProfileCompletionCard/ProfileCompletionCard.tsx:49-52 | step n becomes completed and every other step keeps its flag |
| ProfileCompletionCard.ToggleExpanded | src/components/ProfileCompletionCard/ProfileCompletionCard.tsx:65-67 | the step is expanded afterwards iff it was not; otherwise nothing is expanded |
| ProfileCompletionCard.ToggleTwice | src/components/ProfileCompletionCard/ProfileCompletionCard.tsx:65-67 | toggling twice expands the step if it was expanded, and otherwise leaves nothing expanded |
| ProfileCompletionCard.StepButtonLabel | src/components/ProfileCompletionCard/ProfileCompletionCard.tsx:181 | "Cancel" for the open step, "Edit" for a completed one, "Complete →" otherwise |
| ProfileCompletionCard.OneCancelButton | src/components/ProfileCompletionCard/ProfileCompletionCard.tsx:181 | at most one step shows "Cancel", and it is the expanded one |
| ProfileCompletionCard.Card.constructor | src/components/ProfileCompletionCard/ProfileCompletionCard.tsx:32-47 | each form field starts from the data with logical-or defaults, nothing expanded |
| ProfileCompletionCard.Card.ToggleStep | src/components/ProfileCompletionCard/ProfileCompletionCard.tsx:65-67 | the expanded step follows ToggleExpanded |
| ProfileCompletionCard.Card.SetName | src/components/ProfileCompletionCard/ProfileCompletionCard.tsx:191-197 | the name field takes the typed value |
| ProfileCompletionCard.Card.SetLocation | src/components/ProfileCompletionCard/ProfileCompletionCard.tsx:200-207 | the location field takes the typed value |
| ProfileCompletionCard.Card.ToggleInterest | src/components/ProfileCompletionCard/ProfileCompletionCard.tsx:97-103 | the interest list is Toggle of the old one with the option; when the old list was duplicate-free and within the offered interests, so is the new one |
| ProfileCompletionCard.Card.SetVehicle | src/components/ProfileCompletionCard/ProfileCompletionCard.tsx:261-267 | the vehicle field takes the typed value |
| ProfileCompletionCard.Card.SetVehicleType | src/components/ProfileCompletionCard/ProfileCompletionCard.tsx:273-285 | the ownership radio takes the chosen value |
| ProfileCompletionCard.Card.ToggleNewsletter | src/components/ProfileCompletionCard/ProfileCompletionCard.tsx:105-111 | the newsletter list is Toggle of the old one with the id; when the old list was duplicate-free and within the two ids, so is the new one |
| ProfileCompletionCard.Card.SaveStep1 | src/components/ProfileCompletionCard/ProfileCompletionCard.tsx:69-74 | with a non-empty, untrimmed name and a callback, emits name and location and collapses; otherwise nothing changes |
| ProfileCompletionCard.Card.SaveStep2 | src/components/ProfileCompletionCard/ProfileCompletionCard.tsx:76-81 | with at least one interest and a callback, emits the interests and collapses; otherwise nothing changes |
| ProfileCompletionCard.Card.SaveStep3 | src/components/ProfileCompletionCard/ProfileCompletionCard.tsx:83-88 | with a non-empty vehicle and a callback, emits type and vehicle and collapses; otherwise nothing changes |
| ProfileCompletionCard.Card.SaveStep4 | src/components/ProfileCompletionCard/ProfileCompletionCard.tsx:90-95 | with a callback, emits the newsletters (possibly none) and collapses |
| OnboardingStep1.IsNextDisabled | src/pages/Onboarding/OnboardingStep1.tsx:37 | Next is disabled exactly when the name is all whitespace |
| OnboardingStep1.NextEvent | src/pages/Onboarding/OnboardingStep1.tsx:31-35 | Next fires iff there is a callback and a non-blank name, with the untrimmed name and location |
| OnboardingStep1.Step1.constructor | src/pages/Onboarding/OnboardingStep1.tsx:28-29 | name and location start from the initial data, or empty |
| OnboardingStep1.Step1.ChangeName | src/pages/Onboarding/OnboardingStep1.tsx:64-72 | the name takes the typed value |
| OnboardingStep1.Step1.ChangeLocation | src/pages/Onboarding/OnboardingStep1.tsx:73-81 | the location takes the typed value |
| OnboardingStep1.Step1.ClickNext | src/pages/Onboarding/OnboardingStep1.tsx:106-110 | the click reports NextEvent of the current fields |
| OnboardingStep1.Step1.ClickPrevious | src/pages/Onboarding/OnboardingStep1.tsx:87-91 | the disabled Previous button reports nothing |
| OnboardingStep1.Step1.ClickSkip | src/pages/Onboarding/OnboardingStep1.tsx:97-103 | Skip reports Skip when the callback exists |
| OnboardingStep2.Step2.constructor | src/pages/Onboarding/OnboardingStep2.tsx:36-38 | the selection starts from the initial interests, or empty |
| OnboardingStep2.Step2.ClickTile | src/pages/Onboarding/OnboardingStep2.tsx:40-46 | the tile's interest is toggled: selected afterwards iff it was not; a duplicate-free selection of offered interests stays one |
| OnboardingStep2.Step2.ClickNext | src/pages/Onboarding/OnboardingStep2.tsx:48-50 | Next reports the selection (even an empty one) when the callback exists |
| OnboardingStep2.Step2.ClickPrevious | src/pages/Onboarding/OnboardingStep2.tsx:96-100 | Previous reports Previous when the callback exists |
| OnboardingStep2.Step2.ClickSkip | src/pages/Onboarding/OnboardingStep2.tsx:106-110 | Skip reports Skip when the callback exists |
| OnboardingStep3.NextEvent | src/pages/Onboarding/OnboardingStep3.tsx:34-38 | Next fires iff there is a callback and either "no vehicle" was chosen or the field is not blank; it reports 'none' or the untrimmed field |
| OnboardingStep3.NoVehicleThenNext | src/pages/Onboarding/OnboardingStep3.tsx:34-43 | after "no vehicle", Next reports 'none' |
| OnboardingStep3.BlankVehicleBlocksNext | src/pages/Onboarding/OnboardingStep3.tsx:34-38 | a blank field without "no vehicle" reports nothing |
| OnboardingStep3.Step3.constructor | src/pages/Onboarding/OnboardingStep3.tsx:28-32 | type and vehicle start from the initial data ('own', ''); "no vehicle" starts off |
| OnboardingStep3.Step3.SetVehicleType | src/pages/Onboarding/OnboardingStep3.tsx:85-97 | the radio sets the ownership |
| OnboardingStep3.Step3.ClickNoVehicle | src/pages/Onboarding/OnboardingStep3.tsx:40-43 | sets "no vehicle" and clears the field |
| OnboardingStep3.Step3.ChangeVehicle | src/pages/Onboarding/OnboardingStep3.tsx:45-48 | typing sets the field and clears "no vehicle"; while it is on, the disabled field takes no input |
| OnboardingStep3.Step3.ClickNext | src/pages/Onboarding/OnboardingStep3.tsx:153-156 | the click reports NextEvent of the current state |
| OnboardingStep3.Step3.ClickPrevious | src/pages/Onboarding/OnboardingStep3.tsx:137-140 | Previous reports Previous when the callback exists |
| OnboardingStep3.Step3.ClickSkip | src/pages/Onboarding/OnboardingStep3.tsx:145-148 | Skip reports Skip when the callback exists |
| OnboardingStep4.NewslettersJson | src/pages/Onboarding/OnboardingStep4.tsx:50-53 | the selection is stored as a JSON array of the same strings, in order |
| OnboardingStep4.StringsOf | src/pages/Onboarding/OnboardingStep4.tsx:50-53 | reads a JSON array of strings back, of the same length |
| OnboardingStep4.NewslettersRoundTrip | src/pages/Onboarding/OnboardingStep4.tsx:50-53 | reading the stored array gives back the selection |
| OnboardingStep4.CompletedRecord | src/pages/Onboarding/OnboardingStep4.tsx:47-55 | the written record is absent exactly when the stored text does not parse; otherwise it is an object whose `newsletters` is the selection |
| OnboardingStep4.CompletedRecordReadsBack | src/pages/Onboarding/OnboardingStep4.tsx:49-53 | the written record's `newsletters` field reads back as the selection |
| OnboardingStep4.CompletedRecordKeepsFields | src/pages/Onboarding/OnboardingStep4.tsx:49-53 | every other field of a stored object is kept, and no field besides `newsletters` is added |
| OnboardingStep4.CompletedRecordFromNothing | src/pages/Onboarding/OnboardingStep4.tsx:49 | a missing, empty or null record gives an object holding only `newsletters` |
| OnboardingStep4.Step4.constructor | src/pages/Onboarding/OnboardingStep4.tsx:37-39 | the selection starts empty, whatever the props |
| OnboardingStep4.Step4.ClickNewsletter | src/pages/Onboarding/OnboardingStep4.tsx:41-45 | the clicked newsletter is toggled; the selection stays duplicate-free and within the two ids |
| OnboardingStep4.Step4.ClickComplete | src/pages/Onboarding/OnboardingStep4.tsx:47-55 | on a parse failure nothing is written and there is no navigation; otherwise the merged record is stored under `onboardingData` and the route is /welcome |
| OnboardingStep4.Step4.ClickPrevious | src/pages/Onboarding/OnboardingStep4.tsx:57-59 | goes to step 3 |
| OnboardingStep4.Step4.ClickSkip | src/pages/Onboarding/OnboardingStep4.tsx:61-63 | goes to the welcome page |
| Welcome.Resolve | src/pages/Welcome/Welcome.tsx:28 | destructuring defaults replace only missing fields ('Guest', [], 'own'); no data gives the guest view |
| Welcome.Title | src/pages/Welcome/Welcome.tsx:45 | the title is exactly "Welcome " followed by the name, and nothing else |
| Welcome.InterestsClause | src/pages/Welcome/Welcome.tsx:46-49 | empty for no interests; " in A" for one; " in A and B" for two or more |
| Welcome.OnlyFirstTwoInterests | src/pages/Welcome/Welcome.tsx:46-49 | interests after the second never change the subtitle |
| Welcome.Subtitle | src/pages/Welcome/Welcome.tsx:46-49 | the subtitle is the fixed sentence with no interest named, " in " and the only interest, or " in " and the first two joined by " and " |
| Welcome.InterestsText | src/pages/Welcome/Welcome.tsx:68 | the interests line is a run of decimal digits followed by " selected" |
| Welcome.LocationText | src/pages/Welcome/Welcome.tsx:65 | a missing or empty location reads "Not specified"; otherwise the location itself |
| Welcome.InterestsTextCounts | src/pages/Welcome/Welcome.tsx:68 | the interests line is the count in decimal followed by " selected" |
| Welcome.VehicleCountText | src/pages/Welcome/Welcome.tsx:74 | "1" iff a vehicle that is not '' or 'none' is present, else "0" |
| Welcome.NoVehicleAnswer | src/pages/Welcome/Welcome.tsx:74-85 | step 3's 'none' answer counts as no vehicle and hides the card |
| Welcome.NewsletterText | src/pages/Welcome/Welcome.tsx:77 | "Subscribed" iff at least one newsletter |
| Welcome.VehicleCard | src/pages/Welcome/Welcome.tsx:85-130 | the vehicle card shows iff the count reads 1, with exactly one radio on, matching the ownership |
| Welcome.NoUserData | src/pages/Welcome/Welcome.tsx:28-77 | with no user data: "Welcome Guest", the plain subtitle, "Not specified", 0 vehicles, not subscribed |
| Membership.Merge | src/pages/Membership/Membership.tsx:29-37 | no update iff the parsed value is null (the field access throws inside the updater); otherwise each field follows logical-or and the avatar is replaced |
| Membership.MergeFields | src/pages/Membership/Membership.tsx:30-37 | per field: a truthy stored value wins, otherwise the previous one stays; the avatar is the stored one or undefined |
| Membership.MergeNonObject | src/pages/Membership/Membership.tsx:30-37 | a parsed non-object keeps every field but clears the avatar |
| Membership.MergeIdempotent | src/pages/Membership/Membership.tsx:30-37 | merging the same record twice equals merging it once |
| Membership.Loaded | src/pages/Membership/Membership.tsx:25-42 | a missing or empty item or unparseable text leaves the record shown unchanged; a stored null throws inside the state updater and crashes the page; any other parsed value shows Merge of the old record and that value |
| Membership.LoadedIdempotent | src/pages/Membership/Membership.tsx:25-42 | when the page did not crash, re-running the mount effect on the same storage gives the same outcome |
| Membership.OnboardingNewslettersNotShown | src/pages/Membership/Membership.tsx:36 | after onboarding step 4 alone, the page shows the defaults, including the default newsletter |
| Membership.MembershipPage.constructor | src/pages/Membership/Membership.tsx:11-22 | the page starts from the built-in defaults and has not crashed |
| Membership.MembershipPage.LoadFromStorage | src/pages/Membership/Membership.tsx:25-42 | the effect shows the record Loaded computes from the old record and the storage, or marks the page crashed and keeps the old record |
| MembershipCard.FirstOrEmpty | src/components/MembershipCard/MembershipCard.tsx:38 | `n[0]` joined: the first character, or nothing for an empty piece |
| MembershipCard.Heads | src/components/MembershipCard/MembershipCard.tsx:38 | one head per split piece |
| MembershipCard.CardInitialsAround | src/components/MembershipCard/MembershipCard.tsx:38 | the initials of "a b" are the initials of a followed by those of b |
| MembershipCard.CardInitialsWord | src/components/MembershipCard/MembershipCard.tsx:38 | a single word gives its first letter |
| MembershipCard.CardInitialsOfWords | src/components/MembershipCard/MembershipCard.tsx:38 | "First Last" gives the two first letters, case kept |
| MembershipCard.ExtraSpaceIgnored | src/components/MembershipCard/MembershipCard.tsx:38 | a leading space adds no initial |
| MembershipCard.DefaultInitials | src/components/MembershipCard/MembershipCard.tsx:17-38 | the default name shows "LA" |
| MembershipCard.Render | src/components/MembershipCard/MembershipCard.tsx:17-71 | parameter defaults for missing props; an image iff the avatar is non-empty, otherwise the initials of the shown name |
| ProfileBanner.GetInitials | src/components/ProfileBanner/ProfileBanner.tsx:25-31 | the initials are never empty |
| ProfileBanner.InitialsOf | src/components/ProfileBanner/ProfileBanner.tsx:27-30 | the result for the split pieces is never empty |
| ProfileBanner.InitialsAreLetters | src/components/ProfileBanner/ProfileBanner.tsx:25-31 | with two or more pieces the first and last are non-empty, the "undefined" text cannot appear, and the initials are at most two characters |
| ProfileBanner.BlankNameInitial | src/components/ProfileBanner/ProfileBanner.tsx:30 | a blank name shows "U" |
| ProfileBanner.SingleWordInitial | src/components/ProfileBanner/ProfileBanner.tsx:30 | one word shows its upper-cased first letter |
| ProfileBanner.InitialsOfParts | src/components/ProfileBanner/ProfileBanner.tsx:27-28 | two or more non-empty-ended pieces give the upper-cased first letters of the first and last |
| ProfileBanner.MiddleIgnored | src/components/ProfileBanner/ProfileBanner.tsx:25-31 | only the first and last words count; middle words and doubled spaces do not |
| ProfileBanner.TwoWordInitials | src/components/ProfileBanner/ProfileBanner.tsx:25-31 | "First Last" gives the two upper-cased first letters |
| ProfileBanner.BannerAvatar | src/components/ProfileBanner/ProfileBanner.tsx:38-44 | an image iff the avatar is non-empty, otherwise the initials |
| ProfileBanner.LocationLine | src/components/ProfileBanner/ProfileBanner.tsx:60-73 | the location line shows iff the location is non-empty |
| DateUtils.DaysInMonth | src/utils/dateUtils.ts:30-40 | every month has 28 to 31 days |
| DateUtils.NormalizeDay | src/utils/dateUtils.ts:36 | the constructor's day carry always gives a real date and leaves an in-range day alone |
| DateUtils.MakeDate | src/utils/dateUtils.ts:36 | `new Date(y, m, d)` always gives a real date |
| DateUtils.MakeDateOfValid | src/utils/dateUtils.ts:36 | the constructor gives back any real date outside the years 0 to 99 |
| DateUtils.JoinFields | src/utils/dateUtils.ts:10-15 | the text splits on '/' into exactly the three renderings, in order |
| DateUtils.FormatJoinDate | src/utils/dateUtils.ts:10-15 | the text splits on '/' into the 1-based month, the day and the year, in that order |
| DateUtils.CurrentJoinDate | src/utils/dateUtils.ts:21-23 | today's date formats to at least 5 characters, and parsing it back gives today's date (for a year of 100 or more; a two-digit year reads back as 19xx) |
| DateUtils.ParseJoinDate | src/utils/dateUtils.ts:30-40 | a parsed date is always a real date; fewer than three pieces gives null |
| DateUtils.ParseParts | src/utils/dateUtils.ts:32-36 | the same for the split pieces |
| DateUtils.ReadFields | src/utils/dateUtils.ts:33-36 | null exactly when one of the three numbers is missing; otherwise the constructor's reading of (year, month - 1, day) |
| DateUtils.ParseOfRendered | src/utils/dateUtils.ts:32-36 | three rendered integers parse as the constructor's reading of them |
| DateUtils.ParseFields | src/utils/dateUtils.ts:10-40 | "M/D/Y" parses as `new Date(Y, M-1, D)` |
| DateUtils.ParseFormattedFields | src/utils/dateUtils.ts:10-40 | a formatted date parses as the constructor applied to its own fields |
| DateUtils.ParseFormatted | src/utils/dateUtils.ts:10-40 | round trip: parse(format(d)) == d for every real date outside the years 0 to 99 |
| DateUtils.MakeDateOfTwoDigitYear | src/utils/dateUtils.ts:36 | the constructor moves a year 0 to 99 into the 1900s |
| DateUtils.ParseTwoDigitYear | src/utils/dateUtils.ts:10-40 | a formatted date in the years 0 to 99 parses back into the 1900s |
| DateUtils.ParsePartsExtra | src/utils/dateUtils.ts:32 | pieces after the third are ignored |
| DateUtils.ExtraPiecesIgnored | src/utils/dateUtils.ts:32 | appending "/anything" to a three-piece date does not change the result |
| DateUtils.MonthIndexCarries | src/utils/dateUtils.ts:36 | a month index past December carries into the next year |
| DateUtils.ParseMonthThirteen | src/utils/dateUtils.ts:30-40 | month 13 is accepted as January of the next year |
| DateUtils.DayOverflow | src/utils/dateUtils.ts:36 | day 30 of February is March 1 (leap year) or March 2; day 0 of January is December 31 |
| RatingModal.RatingLabel | src/components/RatingModal/RatingModal.tsx:28-39 | a label exists exactly for ratings 1 to 10 |
| RatingModal.ActiveStarsArePrefix | src/components/RatingModal/RatingModal.tsx:104-106 | star n is lit iff n ≤ max(selected, hovered): the lit stars are a prefix |
| RatingModal.OneTooltip | src/components/RatingModal/RatingModal.tsx:107 | at most one star shows a tooltip, and it is lit |
| RatingModal.TooltipHasLabel | src/components/RatingModal/RatingModal.tsx:107-113 | a hovered star always has a label |
| RatingModal.ScoreText | src/components/RatingModal/RatingModal.tsx:84 | a positive selection is shown as its decimal rendering (which reads back as the rating); no selection shows "0" |
| RatingModal.StarAriaLabel | src/components/RatingModal/RatingModal.tsx:121 | "Rate ", then the decimal digits of n, then " star" or " stars", plural iff n > 1 |
| RatingModal.StarAriaLabelNamesRating | src/components/RatingModal/RatingModal.tsx:121 | the label's digits read back as the star's rating |
| RatingModal.RatingModal.constructor | src/components/RatingModal/RatingModal.tsx:18-26 | the selection starts at the current rating (default 0), nothing hovered |
| RatingModal.RatingModal.Tooltip | src/components/RatingModal/RatingModal.tsx:107-113 | a tooltip iff a star is hovered, showing that star's label |
| RatingModal.RatingModal.ClickStar | src/components/RatingModal/RatingModal.tsx:41-43 | clicking star n selects n |
| RatingModal.RatingModal.HoverStar | src/components/RatingModal/RatingModal.tsx:45-47 | hovering star n shows n's label |
| RatingModal.RatingModal.LeaveStar | src/components/RatingModal/RatingModal.tsx:49-51 | leaving clears the hover and the tooltip |
| RatingModal.RatingModal.Submit | src/components/RatingModal/RatingModal.tsx:53-56 | with a rating, emits Rate then Close; the disabled button emits nothing |
| RatingModal.RatingModal.Cancel | src/components/RatingModal/RatingModal.tsx:58-61 | restores the rating the modal opened with and closes |
| RatingModal.RatingModal.ClickOverlay | src/components/RatingModal/RatingModal.tsx:63-67 | a click on the backdrop itself cancels; a click inside does nothing |
| VehicleImages.VehicleImageMapIsValid | src/utils/vehicleImages.ts:1-37 | the table pairs each of its 25 distinct keys with a picture |
| VehicleImages.SportsKeysAreLowerCase | src/utils/vehicleImages.ts:3-10 | the sports and performance keys are written in lower case |
| VehicleImages.SedanKeysAreLowerCase | src/utils/vehicleImages.ts:12-18 | the sedan and hatchback keys are written in lower case |
| VehicleImages.TruckKeysAreLowerCase | src/utils/vehicleImages.ts:20-29 | the SUV and truck keys are written in lower case |
| VehicleImages.KiaTeslaKeysAreLowerCase | src/utils/vehicleImages.ts:31-36 | the Kia and Tesla keys are written in lower case |
| VehicleImages.KeysAreLowerCase | src/utils/vehicleImages.ts:1-37 | every key is written in lower case, so it can match a lower-cased name |
| VehicleImages.BroncoSportIsLongest | src/utils/vehicleImages.ts:1-37 | "bronco sport" is the unique longest key |
| VehicleImages.IndexOf | src/utils/vehicleImages.ts:43 | the first position of a key |
| VehicleImages.Lookup | src/utils/vehicleImages.ts:43 | `vehicleImageMap[key]` is one of the table's pictures |
| VehicleImages.InsertByLength | src/utils/vehicleImages.ts:41 | insertion adds exactly the one element |
| VehicleImages.InsertKeepsOrder | src/utils/vehicleImages.ts:41 | insertion keeps a longest-first list longest-first |
| VehicleImages.AtMostFirst | src/utils/vehicleImages.ts:41 | everything inserted after the head is at most as long as the head |
| VehicleImages.SortByLength | src/utils/vehicleImages.ts:41 | the sort is a permutation of the keys, longest first |
| VehicleImages.SameMembers | src/utils/vehicleImages.ts:41 | the sorted keys are exactly the table's keys |
| VehicleImages.FirstContained | src/utils/vehicleImages.ts:42-44 | the first key the name includes; none iff the name includes no key |
| VehicleImages.FirstContainedFrom | src/utils/vehicleImages.ts:42-44 | one step of the scan |
| VehicleImages.FirstContainedIsLongest | src/utils/vehicleImages.ts:41-44 | on a longest-first list, the first hit is a longest included key |
| VehicleImages.WinningKey | src/utils/vehicleImages.ts:40-44 | the winning key is a table key |
| VehicleImages.LookupImage | src/utils/vehicleImages.ts:39-46 | the loop's result equals ImageFor |
| VehicleImages.VehicleImageFor | src/utils/vehicleImages.ts:39-46 | `vehicleImageFor` on the real table equals ImageFor |
| VehicleImages.ImageFor | src/utils/vehicleImages.ts:39-46 | a name containing no key gets the default picture; otherwise the picture of some key the lower-cased name contains |
| VehicleImages.LongestContainedKeyWins | src/utils/vehicleImages.ts:39-46 | the winning key is contained in the lower-cased name and is at least as long as any key it contains; none iff it contains no key |
| VehicleImages.MostSpecificKeyWins | src/utils/vehicleImages.ts:39-46 | the picture is the longest contained key's picture, or the default |
| VehicleImages.ImageIsKnown | src/utils/vehicleImages.ts:39-46 | the result is a table picture or the default one |
| VehicleImages.LowerOfUpper | src/utils/vehicleImages.ts:40 | lower-casing undoes upper-casing |
| VehicleImages.CaseDoesNotMatter | src/utils/vehicleImages.ts:40 | names that differ only in letter case get the same picture |
| VehicleImages.BroncoSportBeatsBronco | src/utils/vehicleImages.ts:39-46 | a name containing "bronco sport" gets the Bronco Sport picture, not the Bronco one |
| VehicleImages.UniqueLongestKeyWins | src/utils/vehicleImages.ts:41-44 | a contained key longer than every other key wins |
| ResponsiveNavigation.TotalMonotone | src/hooks/useResponsiveNavigation.ts:41-42 | the running width never decreases |
| ResponsiveNavigation.FitCountIsPrefix | src/hooks/useResponsiveNavigation.ts:37-50 | the fitting links are a prefix: the first k totals fit and every later one does not |
| ResponsiveNavigation.FitsSoFar | src/hooks/useResponsiveNavigation.ts:44-46 | if the next total fits, everything before it fitted |
| ResponsiveNavigation.OverflowPersists | src/hooks/useResponsiveNavigation.ts:44-49 | once something overflowed, the final total exceeds the space |
| ResponsiveNavigation.MoreDemotionAlwaysFires | src/hooks/useResponsiveNavigation.ts:53-56 | with anything hidden, the "+60 > available" test is always true |
| ResponsiveNavigation.LayoutSplitsItems | src/hooks/useResponsiveNavigation.ts:37-66 | visible followed by hidden is the measured items in order; with every link rendered, it is all the items |
| ResponsiveNavigation.EverythingFits | src/hooks/useResponsiveNavigation.ts:44-53 | when everything fits, nothing is hidden |
| ResponsiveNavigation.OverflowDemotesOne | src/hooks/useResponsiveNavigation.ts:44-62 | on overflow with k fitting, k-1 stay visible and item k-1 leads the hidden list; every visible total fits |
| ResponsiveNavigation.MeasureLinks | src/hooks/useResponsiveNavigation.ts:31-50 | the measuring loop computes the first pass: links whose running total fits are visible, the other measured links hidden |
| ResponsiveNavigation.Partition | src/hooks/useResponsiveNavigation.ts:31-63 | the measuring loop and "More" adjustment compute ComputeLayout |
| ResponsiveNavigation.ComputeLayout | src/hooks/useResponsiveNavigation.ts:37-63 | at most the measured links are visible and their running total fits; something is hidden exactly when the measured links overflow |
| ResponsiveNavigation.NavigationBar.constructor | src/hooks/useResponsiveNavigation.ts:14-15 | everything starts visible |
| ResponsiveNavigation.NavigationBar.HandleResize | src/hooks/useResponsiveNavigation.ts:20-67 | without the element or any links nothing changes; otherwise the state is ComputeLayout of the measurements |
| Selection.Without | src/components/ProfileCompletionCard/ProfileCompletionCard.tsx:100 | `filter(i => i !== x)` removes every x and keeps every other element's count |
| Selection.Toggle | src/components/ProfileCompletionCard/ProfileCompletionCard.tsx:97-103 | x is present afterwards iff it was absent; membership of everything else is unchanged |
| Selection.WithoutConcat | src/components/ProfileCompletionCard/ProfileCompletionCard.tsx:100 | the filter distributes over concatenation |
| Selection.WithoutAbsent | src/components/ProfileCompletionCard/ProfileCompletionCard.tsx:100 | filtering out an absent element changes nothing |
| Selection.ToggleAbsentTwice | src/components/ProfileCompletionCard/ProfileCompletionCard.tsx:97-103 | toggling a new element appends it, and toggling again restores the list |
| Selection.TogglePresentTwice | src/components/ProfileCompletionCard/ProfileCompletionCard.tsx:97-103 | toggling a present element twice keeps the members but moves it to the end |
| Selection.WithoutDistinct | src/components/ProfileCompletionCard/ProfileCompletionCard.tsx:100 | filtering keeps a duplicate-free list duplicate-free |
| Selection.ToggleKeepsDistinctSubset | src/pages/Onboarding/OnboardingStep2.tsx:40-46 | toggling an offered option keeps the selection duplicate-free and within the options |
| Json.Or | src/pages/Membership/Membership.tsx:32-36 | `a or b` (logical or) is a when a is truthy, else b |
| Json.Get | src/pages/Membership/Membership.tsx:32-36 | reading a property of null throws; of an object, gives the field or undefined |
| Json.Indexed | src/pages/Onboarding/OnboardingStep4.tsx:50-51 | an array spreads to its decimal indices as keys, and no others |
| Json.SpreadObject | src/pages/Onboarding/OnboardingStep4.tsx:50-51 | spreading an object copies its fields |
| Json.SpreadScalar | src/pages/Onboarding/OnboardingStep4.tsx:50-51 | spreading null, a boolean or a number adds nothing |
| Json.SpreadArray | src/pages/Onboarding/OnboardingStep4.tsx:50-51 | spreading an array gives exactly its index keys |
| Json.Spread | src/pages/Onboarding/OnboardingStep4.tsx:50-51 | spreading a string gives its characters under their decimal index keys, and nothing else |
| Json.LocalStorage.SetItem | src/pages/Onboarding/OnboardingStep4.tsx:50 | `setItem` replaces that one key and nothing else |
| JsString.ContainsIff | src/components/VehicleSearch/VehicleSearch.tsx:262 | `includes` holds iff the query occurs at some position |
| JsString.TrimEmptyIff | src/pages/Onboarding/OnboardingStep1.tsx:37 | `trim()` is empty iff the text is all whitespace |
| JsString.TrimOfTrimmed | src/components/ProfileBanner/ProfileBanner.tsx:26 | trimming text without surrounding whitespace changes nothing |
| JsString.Split | src/components/ProfileBanner/ProfileBanner.tsx:26 | `split` always returns at least one piece |
| JsString.SplitPartsFree | src/utils/dateUtils.ts:32 | no piece contains the separator |
| JsString.JoinSplit | src/utils/dateUtils.ts:32 | joining the pieces with the separator gives the text back |
| JsString.SplitAround | src/utils/dateUtils.ts:32 | splitting "a/b" gives the pieces of a followed by those of b |
| JsString.Number | src/utils/dateUtils.ts:32 | `Number` of blank text is 0 |
| JsString.NumberOfIntToString | src/utils/dateUtils.ts:10-15 | `Number(String(n)) == n` for every integer |

## Left out

- Rendering, CSS classes, icons, images' `alt` text and animations are not modelled. Only the text and the choices the markup derives from state are.
- DOM measurement, events and listeners are inputs. They are the nav element's `offsetWidth` (or its absence), the links' widths, and which key or element an event hit. Adding and removing the `resize`/`orientationchange` and `mousedown` listeners is not modelled.
- The clock is a parameter: `CurrentJoinDate` takes today's date.
- The time-value range of `Date` (an Invalid Date beyond ±8.64e15 ms) is not modelled, and neither are time zones.
- `useResponsiveNavigation`'s `showMoreMenu` flag and its setter are not modelled: they hold no logic.
- Local storage holds parsed values. The JSON text layer (`JSON.stringify`, and `JSON.parse` on well-formed text) is abstracted: a stored item is missing, empty, unparseable text or a parsed JSON value.
- JSON numbers are integers. Fractions, exponents, `NaN` and `Infinity` in stored records are not modelled.
- Object spread and JSON objects are maps, so key order is not modelled.
- `JsString.Number` covers only optional-sign decimal integers around whitespace. In the model, hexadecimal, fractional and exponent text and `Infinity` read as NaN, whereas JavaScript reads them as numbers.
- Case mapping is ASCII only. Strings are sequences of characters, not UTF-16 code units, so `n[0]` on a surrogate pair is not modelled.
- `VehicleSearch.Autocomplete.Select`: the parent's `onVehicleSelect` callback is not modelled. The method returns the emitted vehicle instead.
- The literal vehicle list `carDatabase` is not copied. It is the class's `database` constant, a constructor parameter.
- The welcome page's "Change vehicle" and "Remove vehicle" buttons are not modelled: they only log to the console. Its `onGoHome` and `onCustomizeAgain` buttons only call their callbacks and are not modelled either.
- The card's `onDismiss` button is not modelled: it only calls its callback.
- `RatingModal` does not render while closed. Its methods require `isOpen`, because no event can reach a closed modal.
- React props are captured once, at construction. Because `useState` reads its initial value only on mount, later prop changes have no effect in the source either.
- `Membership.Merge`: stored fields are kept as JSON values. Rendering a truthy non-string name on the card would throw inside `split`; that crash is not modelled.
- `VehicleImages.ImageIsKnown`: states only that the result is a table picture or the default one. The converse, that every picture is reachable, is not stated.
- `VehicleImages.SortByLength`: models the stable sort that JavaScript's `Array.prototype.sort` guarantees (ECMAScript 2019), by insertion. No lemma states stability on its own.
- LocationAutocomplete, the sign-in page, the profile page as a whole, and the presentational components (cards, header, footer, toasts) are not part of this model.
