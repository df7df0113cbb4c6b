# Habit tracker core, modelled in Dafny

This project models the core of a Persian-language habit tracker built with Next.js.

- **Habit store.** It is a list of habit records held by the habit provider. It has one operation per user action: add, update, a daily check-in (`completeDay`), toggle active, archive, unarchive, delete, cache a motivational message, and look up by id. It also holds the goal-duration rule and the migration that backfills fields older saved records lack.
- **Read-side derivations.** The pages compute these from the list:
  - the dashboard counters, including the "unsuccessful days" heuristic;
  - the profile counters;
  - the main list: non-archived habits, active first, newest first;
  - the archive list: archived habits, newest first.
- **Three small pieces:**
  - the Persian-digit transliteration `toPersianNumerals`;
  - the simulated session, with its routing decision and its key-value persistence;
  - the six-slot one-time-code form, with its countdown and submission guard.

Modules follow the source files:

| module | file | models |
|---|---|---|
| `Wrappers` | wrappers.dfy | `Option`, standing for `undefined` and missing fields |
| `Habits` | habit.dfy | the `Habit` record, form data, calendar days, store invariants |
| `HabitRecords` | habit_records.dfy | `processHabitData` and the per-record rewrites inside the store's `map` callbacks |
| `HabitLists` | habit_lists.dfy | the `map` over matching ids, `find`, and the `filter` of delete |
| `Ordering` | ordering.dfy | the two comparators and the insertion sort that uses them |
| `HabitMigration` | habit_migration.dfy | the load-time migration and the persisted record shape |
| `HabitProvider` | habit_store.dfy | `HabitStore`: the provider's state and operations |
| `HabitViews` | habit_views.dfy | the main list and the archive page |
| `Statistics` | statistics.dfy | dashboard and profile counters |
| `PersianNumerals` | persian_numerals.dfy | `toPersianNumerals` |
| `Auth` | auth.dfy | `AuthSession` and the redirect decision |
| `Otp` | otp.dfy | `OtpForm` |

Modelling conventions:

- **Timestamps** are integers: milliseconds since the epoch, in UTC. `DayOf(t)` is the calendar day that `toISOString().split('T')[0]` names. The source tests `lastCheckedIn?.startsWith(today)`; this becomes `DayOf(lastCheckedIn) == today`.
- **Clock and ids.** The clock is never read. Operations take `now` (a timestamp) or `today` (a day number) as parameters. The new habit's id, which the source takes from `Date.now()`, is also a parameter.
- **Form numbers.** The source uses `x || d` on numbers. This is JavaScript truthiness: present and not zero, else `d`. It is modelled as `Truthy` and `OrElse`.
- **Store operations.** Each store operation replaces the `habits` field of `HabitStore` exactly as the source's `setHabits` updater does. Update and check-in share one loop, `ApplyEdit`, over the list. Like the source's `updatedHabitInstance`, that loop records the rewritten record at every match, so the value returned comes from the last match.
- **Usage examples.** `HabitProvider.CreateAndCompleteScenario` and `Auth.LoginScenario` model no source code. They are sanity examples that drive the classes through a short sequence of calls and check the contracts compose: a second check-in on the same day, and the redirects before and after login, profile setup and logout.

## Model

| member | source | states |
|---|---|---|
| HabitRecords.OrElse | src/providers/habit-provider.tsx:79-85 | `n \|\| fallback` is the number when present and non-zero, otherwise the fallback |
| HabitRecords.GoalDuration | src/providers/habit-provider.tsx:77-86 | the duration rule in order: 21/90 gives a non-zero `days2190` or else 21; 40-day gives 40 whatever the input; then a non-zero input; then the existing habit's non-zero duration; else 30; never 0 |
| HabitRecords.GoalDurationPositive | src/providers/habit-provider.tsx:77-86 | with non-negative inputs the duration is at least one day |
| HabitRecords.GoalDurationExistingOnlyAsFallback | src/providers/habit-provider.tsx:82-85 | the existing habit's duration matters only when neither the strategy nor the input decides |
| HabitRecords.ProcessHabitData | src/providers/habit-provider.tsx:76-95 | title copied; duration by the rule; missing goal and triggers become `''`, a missing strategy `'none'`, missing details `{}`; present values are kept |
| HabitRecords.NewHabit | src/providers/habit-provider.tsx:97-107 | the new record has the given id and creation time, 0 completed days, is active and not archived, has no check-in and no message, and carries the processed fields |
| HabitRecords.UpdatedRecord | src/providers/habit-provider.tsx:115-121 | update replaces title, totalDays (the rule, using the existing habit), goal, triggers, strategy and details, and keeps id, createdAt, daysCompleted, both flags, lastCheckedIn and the message |
| HabitRecords.CheckedIn | src/providers/habit-provider.tsx:135-149 | the count goes up by exactly one iff the habit is active, not archived, below its goal and not checked in today; then `lastCheckedIn` is now; otherwise the record is unchanged; no other field changes; afterwards no further check-in is possible that day; progress stays within the goal |
| HabitRecords.Toggled | src/providers/habit-provider.tsx:158 | flips `isActive` only when not archived; nothing else changes |
| HabitRecords.Archived | src/providers/habit-provider.tsx:170 | archived and inactive; nothing else changes |
| HabitRecords.Unarchived | src/providers/habit-provider.tsx:178 | not archived and active; nothing else changes |
| HabitRecords.WithMessage | src/providers/habit-provider.tsx:191-198 | the message is cached with today's date; nothing else changes |
| HabitRecords.Apply | src/providers/habit-provider.tsx:112-202 | every edit keeps id and createdAt and the archived-implies-inactive rule; every edit but update keeps progress within the goal |
| HabitRecords.ApplyIdempotent | src/providers/habit-provider.tsx:112-202 | update, check-in, archive, unarchive and message edits give the same record when repeated |
| HabitRecords.ToggleInvolution | src/providers/habit-provider.tsx:158 | toggling twice restores the record |
| HabitRecords.ArchivedIgnoresToggle | src/providers/habit-provider.tsx:158-178 | an archived habit ignores the toggle; unarchiving makes it active again |
| HabitRecords.CheckInOncePerDay | src/providers/habit-provider.tsx:135-140 | a second check-in on the same calendar day changes nothing |
| HabitRecords.UpdateCanBreakProgressBound | src/providers/habit-provider.tsx:117-121 | an update can leave more completed days than the new goal allows (witness: 30 of 30 done, new input 10) |
| HabitRecords.FormDataGetsThirtyDays | src/providers/habit-provider.tsx:76-107 | data with only a title, no strategy and no duration input, yields a 30-day goal |
| HabitLists.MapMatching | src/providers/habit-provider.tsx:115 | the list keeps its length |
| HabitLists.MapMatchingAt | src/providers/habit-provider.tsx:114-125 | index by index: ids kept, records with another id untouched, matching records rewritten by the edit; the id is present after iff present before; an absent id leaves the list unchanged |
| HabitLists.MapMatchingSnoc | src/providers/habit-provider.tsx:115-125 | the map handles an extra trailing record by itself, which is what the store's loop relies on |
| HabitLists.MapMatchingPrefixStep | src/providers/habit-provider.tsx:115-125 | extending the prefix by one record extends the mapped prefix by that record, rewritten if it matches |
| HabitLists.MapMatchingWhole | src/providers/habit-provider.tsx:115-125 | the full prefix maps like the list, and the id is present after the map iff before |
| HabitLists.MapMatchingKeepsArchivedInactive | src/providers/habit-provider.tsx:155-182 | every list edit preserves `isArchived ⇒ !isActive` |
| HabitLists.MapMatchingKeepsProgress | src/providers/habit-provider.tsx:131-202 | every list edit except update preserves `0 ≤ daysCompleted ≤ totalDays` |
| HabitLists.MapMatchingIdempotent | src/providers/habit-provider.tsx:167-182 | archiving, unarchiving, updating, checking in and caching a message twice is the same as once |
| HabitLists.CompleteDayOncePerDay | src/providers/habit-provider.tsx:131-153 | a second `completeDay` on the same calendar day leaves the list unchanged |
| HabitLists.ToggleTwiceRestores | src/providers/habit-provider.tsx:155-161 | toggling the same id twice restores the list |
| HabitLists.FindFirst | src/providers/habit-provider.tsx:164 | `find` returns none iff no record has the id, otherwise a listed record with that id |
| HabitLists.FindFirstIsFirst | src/providers/habit-provider.tsx:164 | the record found has no match before it |
| HabitLists.FindFirstHasNoEarlierMatch | src/providers/habit-provider.tsx:164 | a record `find` returns sits at an index with no match before it |
| HabitLists.FindLast | src/providers/habit-provider.tsx:113-127 | the last match: none iff absent, otherwise a listed record with that id |
| HabitLists.FindLastIsLast | src/providers/habit-provider.tsx:113-127 | the record found has no match after it |
| HabitLists.FindLastSnoc | src/providers/habit-provider.tsx:116-122 | a trailing match overrides the earlier ones |
| HabitLists.FindFirstIsFindLast | src/providers/habit-provider.tsx:163-165 | with unique ids the first and the last match coincide |
| HabitLists.RemoveId | src/providers/habit-provider.tsx:185 | no record with the id remains; deleting an absent id changes nothing |
| HabitLists.RemoveIdCounts | src/providers/habit-provider.tsx:185 | every record with another id is kept with its multiplicity; the matching ones are all dropped |
| HabitLists.RemoveIdConcat | src/providers/habit-provider.tsx:185 | the filter distributes over concatenation, so survivors keep their order |
| HabitLists.DeletedIsNotFound | src/providers/habit-provider.tsx:163-186 | after delete, lookup by the id finds nothing |
| HabitLists.RemoveIdKeepsInvariants | src/providers/habit-provider.tsx:185 | delete preserves both store invariants |
| Ordering.BeforeTotalPreorder | src/providers/habit-provider.tsx:108 | both comparators are total and transitive |
| Ordering.Insert | src/providers/habit-provider.tsx:108 | insertion is a permutation of the list plus the new record |
| Ordering.InsertSorted | src/components/habits/habit-list.tsx:34-44 | inserting into a sorted list keeps it sorted |
| Ordering.Sort | src/components/habits/habit-list.tsx:34-44 | the result is a permutation of the input and sorted by the comparator |
| Ordering.PermutationKeepsInvariants | src/providers/habit-provider.tsx:108 | reordering the records keeps both store invariants |
| HabitMigration.Migrate | src/providers/habit-provider.tsx:47-57 | present fields are kept; a missing `isArchived` becomes false, goal and triggers `''`, strategy `'none'`, details `{}` |
| HabitMigration.Persisted | src/providers/habit-provider.tsx:69 | a saved current record has every backfilled field present |
| HabitMigration.MigrateAll | src/providers/habit-provider.tsx:47-57 | loading keeps the number of records and backfills each one: the i-th loaded record is the migration of the i-th stored one |
| HabitMigration.PersistAll | src/providers/habit-provider.tsx:69 | saving keeps the number of records |
| HabitMigration.MigratePersistedIsIdentity | src/providers/habit-provider.tsx:47-57 | a current record survives a save and a reload unchanged |
| HabitMigration.MigrateIdempotent | src/providers/habit-provider.tsx:47-57 | migrating an already migrated record changes nothing |
| HabitMigration.ReloadRoundTrip | src/providers/habit-provider.tsx:42-74 | saving the list and loading it back gives the same list |
| HabitProvider.HabitStore.constructor | src/providers/habit-provider.tsx:38 | the store starts empty |
| HabitProvider.HabitStore.Load | src/providers/habit-provider.tsx:42-64 | a stored list replaces the state after migration; nothing stored leaves it alone |
| HabitProvider.HabitStore.AddHabit | src/providers/habit-provider.tsx:97-110 | returns the new record; the list becomes the old list plus that record, sorted newest first: one longer, the same records plus the new one, sorted; archived-implies-inactive preserved; the progress bound preserved when the new goal is non-negative |
| HabitProvider.HabitStore.ApplyEdit | src/providers/habit-provider.tsx:112-153 | the loop rewrites exactly the matching records and returns the last rewritten one, none iff the id is absent |
| HabitProvider.HabitStore.UpdateHabit | src/providers/habit-provider.tsx:112-128 | the list is the map of the update, the result is the rewritten record, none iff absent; archived-inactive preserved |
| HabitProvider.HabitStore.CompleteDay | src/providers/habit-provider.tsx:131-153 | the list is the map of the check-in, the result is the reached record, none iff absent; both invariants preserved |
| HabitProvider.HabitStore.ToggleHabitActive | src/providers/habit-provider.tsx:155-161 | the list is the map of the toggle; both invariants preserved |
| HabitProvider.HabitStore.GetHabitById | src/providers/habit-provider.tsx:163-165 | none iff no record has the id; otherwise the FIRST record with that id: it is listed at an index that no earlier match precedes |
| HabitProvider.HabitStore.ArchiveHabit | src/providers/habit-provider.tsx:167-173 | the list is the map of archive; both invariants preserved |
| HabitProvider.HabitStore.UnarchiveHabit | src/providers/habit-provider.tsx:175-182 | the list is the map of unarchive; both invariants preserved |
| HabitProvider.HabitStore.DeleteHabit | src/providers/habit-provider.tsx:184-186 | the list is the filter; the id is absent afterwards; both invariants preserved |
| HabitProvider.HabitStore.SetHabitMotivationalMessage | src/providers/habit-provider.tsx:188-202 | the list is the map of the message edit; both invariants preserved |
| HabitViews.Select | src/components/habits/habit-list.tsx:14 | the filter selects only records with the flag, and is empty iff none has it |
| HabitViews.SelectCounts | src/app/archive/page.tsx:16 | the filter keeps each selected record with its multiplicity and drops the rest |
| HabitViews.SelectConcat | src/app/my-habits/page.tsx:15 | the filter distributes over concatenation |
| HabitViews.SelectLengths | src/app/my-habits/page.tsx:15-16 | every habit passes exactly one of the two filters, so the two lengths add up to the list length |
| HabitViews.HabitList | src/components/habits/habit-list.tsx:14-44 | empty state iff every habit is archived; otherwise a permutation of the non-archived habits, active before inactive, newest first within each group |
| HabitViews.ArchiveList | src/app/archive/page.tsx:16-25 | empty state iff no habit is archived; otherwise a permutation of the archived habits, newest first |
| HabitViews.ListsPartitionHabits | src/app/archive/page.tsx:16 | every habit is on exactly one of the two lists |
| Statistics.CountActive | src/app/profile/page.tsx:22 | at most the number of habits, 0 iff none is active |
| Statistics.CountActiveFrom | src/app/profile/page.tsx:22 | the count over a suffix is the number of active positions in that suffix |
| Statistics.CountActiveIsCardinality | src/app/profile/page.tsx:22 | the count equals the number of positions holding an active habit |
| Statistics.SumCompleted | src/app/my-habits/page.tsx:18-21 | with non-negative counts, the reduce is non-negative and 0 iff every habit has 0 completed days |
| Statistics.ElapsedDays | src/app/my-habits/page.tsx:24-29 | days from the creation day to today, 0 iff today is not after the creation day |
| Statistics.CompletionsBeforeToday | src/app/my-habits/page.tsx:31-35 | `daysCompleted - 1` exactly when checked in today with a positive count, otherwise `daysCompleted` |
| Statistics.UnsuccessfulDaysOf | src/app/my-habits/page.tsx:37 | `max(0, elapsed - completedBeforeToday)`: never negative, at most the elapsed days, 0 on the creation day |
| Statistics.SumUnsuccessful | src/app/my-habits/page.tsx:23-39 | the missed-day reduce is 0 iff every habit contributes 0 |
| Statistics.DashboardOf | src/app/my-habits/page.tsx:15-39 | the habit count plus the archived count is the list length, and 0 iff every habit is archived; the successful days plus those of the archived habits are the profile's total; with non-negative counts the missed days are at most the elapsed days of the non-archived habits |
| Statistics.ProfileOf | src/app/profile/page.tsx:20-22 | total is the list length; successful days are the non-archived total plus the archived total; the active count is the number of positions holding an active habit, at most the total |
| Statistics.SumsConcat | src/app/my-habits/page.tsx:18-39 | both reduces split over concatenation |
| Statistics.DashboardIgnoresArchived | src/app/my-habits/page.tsx:15-39 | inserting an archived habit anywhere changes no dashboard figure |
| Statistics.ProfileSplitsByArchive | src/app/profile/page.tsx:21 | the profile's day total is the dashboard's plus that of the archived habits |
| Statistics.ActiveAtMostNonArchived | src/app/profile/page.tsx:22 | when archived habits are inactive, the active count is at most the number of non-archived habits |
| Statistics.UnsuccessfulAtMostElapsed | src/app/my-habits/page.tsx:23-39 | the missed-day total is at most the total of elapsed days |
| Statistics.DashboardUnsuccessfulBound | src/app/my-habits/page.tsx:23-39 | with non-negative counts the missed days of the non-archived habits are at most their elapsed days |
| Statistics.NoMissedDaysOnCreationDay | src/app/my-habits/page.tsx:29-37 | habits created today contribute no missed day |
| PersianNumerals.TableIsOffset | src/lib/utils.ts:15 | the table holds U+06F0 + d at index d |
| PersianNumerals.ConvertChar | src/lib/utils.ts:16 | an ASCII digit becomes U+06F0 plus its value; anything else is kept; the result is never an ASCII digit |
| PersianNumerals.ToPersianNumerals | src/lib/utils.ts:12-16 | same length, each character converted in place, no ASCII digit left |
| PersianNumerals.EmptyStaysEmpty | src/lib/utils.ts:12-13 | the empty string maps to itself |
| PersianNumerals.Idempotent | src/lib/utils.ts:16 | converting twice is converting once |
| PersianNumerals.DecimalString | src/lib/utils.ts:9-11 | `toString` of a natural number: digits only, no leading zero |
| PersianNumerals.DecimalStringValue | src/lib/utils.ts:9-11 | the decimal digits read back as the number |
| PersianNumerals.NumberToPersian | src/lib/utils.ts:8-17 | a number becomes Persian digits, with a leading `-` when negative |
| PersianNumerals.PersianDigitsOnly | src/lib/utils.ts:16 | a digit string becomes a string of Persian digits |
| PersianNumerals.PersianKeepsValue | src/lib/utils.ts:15-16 | conversion keeps the value of a digit string |
| PersianNumerals.NumberToPersianValue | src/lib/utils.ts:8-17 | the Persian rendering of a natural number reads back as that number |
| Auth.Redirect | src/providers/auth-provider.tsx:57-69 | no redirect while loading or unmounted; authenticated without a profile: to `/profile-setup` iff elsewhere; authenticated with a profile: to `/my-habits` iff on `/`, `/otp` or `/profile-setup`; anonymous: to `/` iff not on one of those; never to the current page |
| Auth.RedirectTargetIsFixpoint | src/providers/auth-provider.tsx:57-69 | the target of a redirect, with the same flags, stays put |
| Auth.Lookup | src/providers/auth-provider.tsx:48 | `getItem` is present iff the key is stored, with the stored value |
| Auth.AuthSession.constructor | src/providers/auth-provider.tsx:29-33 | starts signed out, loading and unmounted, over the given storage |
| Auth.AuthSession.Mount | src/providers/auth-provider.tsx:37-55 | after loading, each flag is exactly "stored value is `'true'`", the name is the stored one, storage unchanged |
| Auth.AuthSession.PendingRedirect | src/providers/auth-provider.tsx:57-69 | no redirect before loading ends; never to the current page |
| Auth.AuthSession.Login | src/providers/auth-provider.tsx:71-79 | writes `'true'` under the session key and sets the flag; nothing else changes |
| Auth.AuthSession.Logout | src/providers/auth-provider.tsx:81-95 | removes exactly the four keys and resets both flags and the name |
| Auth.AuthSession.SaveProfile | src/providers/auth-provider.tsx:97-109 | stores both names and the completed flag, sets the name and the flag; the age is not stored |
| Auth.LoginSurvivesReload | src/providers/auth-provider.tsx:71-77 | after login a reload reads the session as authenticated |
| Auth.LogoutSurvivesReload | src/providers/auth-provider.tsx:81-93 | after logout a reload finds no session, no profile and no name; other keys are untouched |
| Otp.LastChar | src/components/auth/otp-form.tsx:53 | `slice(-1)`: the last character, or empty |
| Otp.JoinFullIffAllFilled | src/components/auth/otp-form.tsx:43-44 | with single-character slots the joined length equals the slot count iff no slot is empty |
| Otp.ReadyToSubmit | src/components/auth/otp-form.tsx:42-47 | auto-submit and the enabled button: not loading and every slot filled |
| Otp.OtpForm.constructor | src/components/auth/otp-form.tsx:16-18 | six empty slots, countdown 59, not loading |
| Otp.OtpForm.HandleChange | src/components/auth/otp-form.tsx:49-60 | non-numeric input changes nothing; otherwise only the slot is rewritten, to the last character typed; focus moves to the next slot iff the value is non-empty and the slot is not the last |
| Otp.OtpForm.Tick | src/components/auth/otp-form.tsx:23 | a positive countdown drops by one, zero stays zero |
| Otp.OtpForm.Resend | src/components/auth/otp-form.tsx:100-105 | the countdown restarts at 59 |
| Otp.OtpForm.PerformSubmit | src/components/auth/otp-form.tsx:32-40 | starts a submission iff none is under way; afterwards loading |
| Otp.OtpForm.AutoSubmit | src/components/auth/otp-form.tsx:42-47 | submits iff every slot is filled and not loading; with `Valid()` keeping `submissions <= (if isLoading then 1 else 0)` and loading never dropping, at most one submission is ever started |

## Left out

- Browser storage and JSON. Parsing and its errors, the save effect, and `console.error` are not modelled. The habit list is held directly, and the persisted form is the `StoredHabit` record. The auth session's storage is a map it owns.
- The clock and time zones. `Date.now()`, `new Date()` and ISO string slicing are replaced by `now`/`today` parameters and `DayOf`. The two clock readings of `completeDay` (habit-provider.tsx:136,144) are one parameter.
- Id generation from `Date.now()`. The id is a parameter. Uniqueness is assumed only where a lemma needs it (`FindFirstIsFindLast`).
- React update scheduling. Every `setHabits` updater runs at once, so the returned `updatedHabitInstance` is the one the updater computed.
- Navigation. `router.push` after unarchive and save-profile, and the `router.replace` of redirects, are not modelled; a redirect is a returned target.
- The LLM motivational flow, progress-ring geometry (floating point), the zod and react-hook-form schemas, rendering and styling.
- `cn`. It only joins CSS class names via library calls.
- Timers and input focus. The countdown interval is the `Tick` event. The submit timeout, and the `login()` it calls after one second, are not modelled; `submissions` counts the submissions started. Focus is a returned slot index. The Backspace focus handler is not modelled.
- Otp.IsNumeric: models `!isNaN(Number(s))` only for strings of ASCII digits. JavaScript also accepts whitespace, signs, decimals and exponents, and this model rejects them.
- PersianNumerals.NumberToPersian: covers integer arguments only. `Number.prototype.toString` of fractions and of exponent notation is not modelled.
- Ordering.Sort: is proved sorted and a permutation. That it keeps tied records in input order, which `Array.prototype.sort` guarantees, is not proved.
- HabitProvider.HabitStore.UpdateHabit: promises archived-implies-inactive only. `daysCompleted ≤ totalDays` does not survive an update in the source (`UpdateCanBreakProgressBound` gives a witness).
- Otp.OtpForm.Resend: requires the state in which the button is shown and enabled (countdown 0, not loading).
- Otp.OtpForm.HandleChange: requires an index below six, as only six inputs are rendered.
- The create form (src/components/habits/habit-form.tsx) submits only a title and `totalDays`, but the store reads `totalDaysInput`. No strategy and no duration input reach the store, so every habit created through the form gets 30 days (`HabitRecords.FormDataGetsThirtyDays`). The store is modelled as written; the form itself is not part of this model.
