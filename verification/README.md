# Car-wash records screen: selection, form and save/delete logic in Dafny

This project models the logic under the records screen of a car-wash booking app. The screen holds a list of
appointments. A user can filter the list by status, search it by text, and view it in one of three ways: as a
list bucketed by a date label, as a flat grid, or as a calendar day sorted by time. A modal form creates and
edits records, and the remote store is called to save or delete them.

Modules, following the two source files:

- `Types`: the `Appointment` record, `Status`, `Option`, and the `Reply` of a remote call (a value, or an exception).
- `JsString`: the ECMAScript string behaviour the screen relies on. This covers the whitespace set shared by
  `trim` and `\s`, `trim` itself, `includes`, and the code-point order that `localeCompare` reduces to on
  `YYYY-MM-DD` and `HH:MM` strings.
- `StableSort`: the two comparators the page passes to `sort`, and a stable insertion sort. The sort is proved
  to be an ordered permutation of its input that keeps records with equal keys in list order.
- `RecordGroups`: list-view bucketing. It is proved equal to a reference bucketing: one bucket per label, in
  first-seen order, each holding exactly the records with that label.
- `RecordsView`: the filter chain, the per-status counts and the selector options, and the rendered view.
- `AppointmentForm`: the form state, `validateForm`, `handleSubmit`, `handleChange`, and prefill from the record
  being edited.
- `RecordsActions`: `handleSaveAppointment` and `handleDeleteAppointment` as pure steps. Each step returns the
  page flags afterwards, the store call it made, the state action it dispatched (if any) and the toast kind. The
  store's replies are a parameter.

Parameters in place of I/O and library code:

- `Env.lower` stands for `toLowerCase`.
- `Env.parseDay` stands for `parseISO` followed by `getFullYear`/`getMonth`/`getDate`. It returns `None` for an
  invalid date, whose components are NaN and compare unequal to everything.
- `Env.dateLabel` stands for the date-label helper (today / tomorrow / this week / month and year).
- `Store` holds the replies of `add`, `update` and `delete`.
- `now` is the clock reading stored in `createdAt`, and `today` is the date that pre-fills a new form.
- `confirmed` is the user's answer to the delete dialog.

The form state always holds strings (`''` initially and after prefill), so `FormData` holds plain strings. Only
the page-side `Patch` and the `Appointment` have optional client fields. An absent `clientName` or `clientPhone`
never matches a search, since the code reads them with `?.` and falls back to `false` (`OptionalMatches`).

## Model

| member | source | states |
|---|---|---|
| JsString.TrimStripsEnds | src/components/AppointmentForm.tsx:63-64 | `trim` returns a stretch of the input with only whitespace before and after it, and that stretch neither starts nor ends with whitespace |
| JsString.TrimEmptyIffAllWhitespace | src/components/AppointmentForm.tsx:63-64 | `!s.trim()` holds exactly when every character of `s` is whitespace |
| JsString.Includes | src/pages/RecordsPage.tsx:93-96 | `includes` is true exactly when the needle occurs at some index of the haystack |
| JsString.StrLeTotal | src/pages/RecordsPage.tsx:137-140 | any two strings are comparable under the order `localeCompare` gives on these strings |
| JsString.StrLeTransitive | src/pages/RecordsPage.tsx:137-140 | that string order is transitive |
| StableSort.BeforeTransitive | src/pages/RecordsPage.tsx:137-141 | the date-then-time and time comparators are transitive |
| StableSort.BeforeBothWays | src/pages/RecordsPage.tsx:137-141 | the comparator returns 0 both ways exactly when date and time (or time) coincide |
| StableSort.InsertSorted | src/pages/RecordsPage.tsx:136-142 | inserting a record into an ordered sequence keeps it ordered |
| StableSort.Sort | src/pages/RecordsPage.tsx:136-142 | the sorted bucket is a permutation of the bucket and is ordered by date, then time |
| StableSort.InsertKeyClass | src/pages/RecordsPage.tsx:468-469 | an inserted record lands ahead of every record with its own key, leaving their order alone |
| StableSort.SortStable | src/pages/RecordsPage.tsx:468-469 | records with equal sort keys keep their relative order, as the stable `Array.prototype.sort` keeps them |
| StableSort.SortOfSorted | src/pages/RecordsPage.tsx:136-142 | sorting an already ordered sequence returns it unchanged |
| StableSort.SortIdempotent | src/pages/RecordsPage.tsx:136-142 | applying the comparator twice gives the same order as applying it once |
| RecordGroups.PushExisting | src/pages/RecordsPage.tsx:129-132 | a record whose label already has a bucket is appended to that bucket, and nothing else changes |
| RecordGroups.PushFresh | src/pages/RecordsPage.tsx:129-132 | a record with a new label opens a new bucket at the end |
| RecordGroups.CollectStep | src/pages/RecordsPage.tsx:127-133 | the `forEach` keeps the buckets equal to the reference bucketing of the records seen so far |
| RecordGroups.FirstSeenOrder | src/pages/RecordsPage.tsx:124-133 | bucket keys appear in the order of the first record that produced them |
| RecordGroups.Group | src/pages/RecordsPage.tsx:124-133 | keys are distinct and in first-seen order, and each bucket holds exactly the records with its label, in list order |
| RecordGroups.GroupPartition | src/pages/RecordsPage.tsx:124-133 | every record lands in the one bucket named by its date's label and in no other |
| RecordGroups.WithLabelCounts | src/pages/RecordsPage.tsx:128-132 | a bucket holds each record of its label as often as the list does, and no record of another label |
| RecordsView.Filter | src/pages/RecordsPage.tsx:84-113 | the result is no longer than the collection and every kept record passes the status, search and calendar-day tests |
| RecordsView.FilterCounts | src/pages/RecordsPage.tsx:84-113 | a record passing the tests is kept as often as it occurs, and any other record is dropped |
| RecordsView.FilterAppend | src/pages/RecordsPage.tsx:84 | filtering distributes over concatenation, so list order is kept |
| RecordsView.FilterIdempotent | src/pages/RecordsPage.tsx:84-113 | filtering the filtered list changes nothing |
| RecordsView.FilterNothing | src/pages/RecordsPage.tsx:86-112 | with `all`, an empty term and a non-calendar view, the whole collection is shown in order |
| RecordsView.SearchKeeps | src/pages/RecordsPage.tsx:91-101 | with a non-empty term, a kept record has the lower-cased term inside its car, service, or present name or phone |
| RecordsView.FilterIgnoresDayOutsideCalendar | src/pages/RecordsPage.tsx:104-112 | outside the calendar view, the selected day and list-versus-grid do not change the result |
| RecordsView.TallyCounts | src/pages/RecordsPage.tsx:70-73 | the `reduce` adds the number of records of each status to the running count |
| RecordsView.StatusCounts | src/pages/RecordsPage.tsx:70-73 | each status's count equals the number of records with it, and a key exists exactly for occurring statuses |
| RecordsView.FilterOptions | src/pages/RecordsPage.tsx:76-81 | `all` carries the collection length, and each status option carries that status's number of records |
| RecordsView.OccurrencesSum | src/pages/RecordsPage.tsx:70-73 | the three per-status counts sum to the collection length |
| RecordsView.OptionCountIsFilterSize | src/pages/RecordsPage.tsx:76-88 | each option's count equals the number of records the status filter alone keeps for it |
| RecordsView.SortBuckets | src/pages/RecordsPage.tsx:136-142 | every bucket keeps its key and becomes an ordered-by-date-then-time permutation of its records, with equal-key records in list order |
| RecordsView.Render | src/pages/RecordsPage.tsx:126-143 | list mode gives the list view of the filtered records; grid gives the filtered list as it is; calendar gives a time-ordered permutation of the filtered list |
| RecordsView.ListViewShape | src/pages/RecordsPage.tsx:124-143 | the list view shows each first-seen label once, in first-seen order, over a date-then-time-ordered permutation of exactly the records with that label |
| RecordsView.RenderStable | src/pages/RecordsPage.tsx:468-469 | in the calendar view and in every bucket, records with equal keys stay in list order |
| RecordsView.SameLabelOneBucket | src/pages/RecordsPage.tsx:124-133 | records that all share one label form a single bucket holding the list as it is |
| RecordsView.SameDayBucketOrderedByTime | src/pages/RecordsPage.tsx:136-142 | the scheduled 09:00 Toyota and 08:00 Honda of one day appear in one bucket with Honda first |
| RecordsView.LaterFirstSameDay | src/pages/RecordsPage.tsx:124-142 | two scheduled records of one day, the later listed first, form one bucket with the earlier time first |
| AppointmentForm.Prefill | src/components/AppointmentForm.tsx:44-56 | date, time, car, service and status are copied; an absent client name or phone becomes `''`; with no record the state is kept |
| AppointmentForm.AllPhoneChars | src/components/AppointmentForm.tsx:66 | true exactly when every character is a digit, whitespace, `+`, `-`, `(` or `)` |
| AppointmentForm.MatchesPhonePattern | src/components/AppointmentForm.tsx:66 | the pattern matches exactly the non-empty strings made of that character class |
| AppointmentForm.FailsMeaning | src/components/AppointmentForm.tsx:61-68 | date and time fail when empty, car and service when every character is whitespace, and the phone when some character is outside the pattern's class |
| AppointmentForm.Validate | src/components/AppointmentForm.tsx:58-72 | passes exactly when no error is recorded; each error is recorded exactly when its field fails its check; car and service fail when blank after trimming |
| AppointmentForm.Submit | src/components/AppointmentForm.tsx:74-80 | `onSave` receives the form data unchanged exactly when validation records no error |
| AppointmentForm.Set | src/components/AppointmentForm.tsx:84 | the named field takes the new value and every other field is unchanged |
| AppointmentForm.SetOwnValue | src/components/AppointmentForm.tsx:84 | writing back a field's own value leaves the form as it was |
| AppointmentForm.HandleChange | src/components/AppointmentForm.tsx:82-90 | only the named field changes; that field's error is cleared if set, and no other error changes |
| AppointmentForm.FreshFormRejected | src/components/AppointmentForm.tsx:32-40 | a new form is `scheduled` at `10:00` and fails validation; when its date is set, the errors are exactly on car and service |
| AppointmentForm.FillingFreshFormAccepted | src/components/AppointmentForm.tsx:82-90 | typing non-blank car and service values into a new form makes it pass validation |
| AppointmentForm.PhoneExamples | src/components/AppointmentForm.tsx:66-68 | `"abc"` fails the phone pattern and `"+7 (999) 123-45-67"` matches it |
| AppointmentForm.PhoneCheck | src/components/AppointmentForm.tsx:66-68 | an empty phone is accepted, and a non-empty one is refused exactly when it fails the pattern |
| RecordsActions.Merge | src/pages/RecordsPage.tsx:175-178 | id and creation time are kept; each present form property overwrites the record's value and each absent one keeps it |
| RecordsActions.MergeLaws | src/pages/RecordsPage.tsx:175-178 | merging nothing is the identity, and merging the same data twice equals merging it once |
| RecordsActions.UnchangedEditRoundTrip | src/pages/RecordsPage.tsx:175-178 | saving an unchanged prefilled form re-sends the record, with an absent client name or phone becoming `''` |
| RecordsActions.OpenAdd | src/pages/RecordsPage.tsx:146-149 | the add modal opens and the edit flag, selection and saving flag are untouched |
| RecordsActions.OpenEdit | src/pages/RecordsPage.tsx:151-155 | the edit modal opens on the given record; the add flag and saving flag are untouched |
| RecordsActions.CloseModal | src/pages/RecordsPage.tsx:157-162 | both modal flags are cleared and the selected record is dropped |
| RecordsActions.CloseUndoesOpen | src/pages/RecordsPage.tsx:146-162 | closing after opening either modal on a closed page restores the page |
| RecordsActions.OpenThenSave | src/pages/RecordsPage.tsx:146-195 | saving from the edit modal opened on a record sends that record merged with the form; saving from the add modal, with the edit modal shut, sends a new record |
| RecordsActions.Save | src/pages/RecordsPage.tsx:165-210 | a missing required property stops before any store call; otherwise the edit or add call is made and `saving` ends false; an action is dispatched and the modal closes only on a success reply |
| RecordsActions.Delete | src/pages/RecordsPage.tsx:213-230 | a declined dialog makes no call; `RemoveAppointment(id)` is dispatched only when the store replies `true` |
| RecordsActions.ValidFormPassesPageCheck | src/pages/RecordsPage.tsx:166 | form data that passes `validateForm` passes the page's required-field check, so the store is called |
| RecordsActions.PageCheckLooserThanForm | src/pages/RecordsPage.tsx:166-169 | a whitespace-only car description passes the page check but not the form |
| RecordsActions.EditKeepsIdentity | src/pages/RecordsPage.tsx:173-180 | an edit sends a record with the selected id and creation time and the form's car and service |
| RecordsActions.AddNullKeepsModalOpen | src/pages/RecordsPage.tsx:195-202 | a `null` reply to `add` dispatches nothing, keeps the modal open, shows an error and ends saving |

## Left out

- Rendering, animations, the date picker, icons and styling: presentation only.
- Modal placement at the click position (`clickPosition`): cosmetic. The modal flags and selection that the opening
  and closing handlers set are modelled (`OpenAdd`, `OpenEdit`, `CloseModal`).
- The load on mount (`getAll`, `SET_APPOINTMENTS`, the `loading` flag): it is outside the modelled core, and
  there is no concurrency to model.
- The state container's reducer: its source is not part of this model. A dispatch is modelled only as which
  action, if any, was issued.
- Toast text and `console.error`: only the toast kind (none, success, error) is kept.
- The `saving` flag's value during the awaited store call: steps are atomic, so only its value afterwards is stated.
- date-fns and locale semantics (`parseISO`, `isToday`/`isTomorrow`/`isThisWeek`, Russian month names,
  `toLowerCase`): these are parameters. A `format` of an invalid date throws in the source; the label
  parameter is total.
- Object key order for label keys that look like array indices: JavaScript would list those first. The real
  labels are words or month-and-year, never such keys, so buckets are modelled in insertion order.
- `localeCompare` is modelled as code-point lexicographic order. That is exact for well-formed
  `YYYY-MM-DD`/`HH:MM` strings but not for arbitrary text.
- Strings are sequences of Unicode scalar values, not UTF-16 code units. The whitespace set and the phone
  character class lie in the Basic Multilingual Plane, so the checks agree.
- `RecordsActions.Save`: the page receives `formData: any`. The model admits only the form's seven properties,
  so a caller cannot overwrite `id` or `createdAt` through the merge.
- `src/components/AppointmentCard.tsx`, `src/components/ui/FilterSelect.tsx`, `src/components/ui/SkeletonCard.tsx`:
  presentation and label lookup only.
