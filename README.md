# Tattoo booking form: a Dafny model

`app.js` is the script of a Telegram mini-app through which a customer books
a tattoo session. The customer fills in a name, a contact and a description,
collects one or more session dates in the `DD.MM.YYYY` form, attaches up to
five reference photos and submits. The script checks the fields and hands
a `create_lead` message to the host bridge. It then shows a loading
indicator and a success message, and asks the host to close the app.

This project models the part of the script that computes or keeps state:

- **`isValidDate`** (`dates.dfy`, module `DateValidation`). It has two steps:
  1. The anchored regular expression yields the three digit groups.
  2. The groups go through the ECMAScript Date constructor and are read back.
  The model follows ECMA-262 for that constructor:
  - The years 0..99 stand for 1900..1999 (MakeFullYear, section 21.4.2.1).
  - The month index is normalised by floor division.
  - The day is counted from the first of the month and rolls over month ends (MakeDay, section 21.4.1.28).
  `ValidDateOfGroups` proves what the round trip amounts to: a string of the
  regular expression's shape is accepted exactly when it names a real
  Gregorian date whose year is at least 100. The module `DateExamples`
  derives the accepted and rejected example dates from that lemma.
- **String operations** (`text.dfy`, module `Text`):
  - `trim` is modelled with ECMAScript's white-space and line-terminator set.
  - `startsWith` and `join` are modelled as well.
  - `Trim` is pinned down by its uniqueness lemma.
  - `Join` is shown to be injective for lists in which no element is empty and none contains the separator's first character.
- **`splice(i, 1)`** (`splice.dfy`, module `Splice`). The start index is clamped as ECMA-262 section 23.1.3.31 says. This is the removal both remove buttons use.
- **Photos** (`photos.dfy`):
  - Module `Photos` models the image filter of `handleFiles` and the record its reader callback pushes.
  - Module `PendingReads` models the photo list while FileReader reads are still in flight. It is the basis of the finding below.
- **The submit handler's pure part** (`submission.dfy`, module `Submission`):
  - the identity prefill of the name and the contact inputs;
  - the four field checks;
  - the payload record, whose `dates` is the list joined by `", "`.
- **The form's state** (`form.dfy`, module `BookingForm`). Class `Form` holds:
  - the input values, the date list and the photo list;
  - the four inline error slots and the three display flags (form, loading, success);
  - the armed timers and the messages handed to the bridge.

  Each handler (`addDate`, `removeDate`, `removePhoto`, `handleFiles`, the
  submit handler and its two timer callbacks) is a method. Each states the
  whole new state it produces. `Valid()` is the class invariant, which every
  list-changing method keeps:
  - the date list is duplicate-free;
  - every entry is a valid date;
  - there are at most five photos.

  The submit handler is split into its checking part (`RunChecks`) and its
  sending part (`Send`). Seen as a state machine, it moves the views from
  Editing to Submitting and then to Succeeded. When the bridge throws, it
  goes back from Submitting to Editing. A failing form stays in Editing.

The outcome of `sendData` (accepted or threw) is a parameter. The Telegram
identity context is the constructor's `user` argument.

A batch that exceeds the photo limit makes `handleFiles` call `showError`
with the message as its only argument (app.js:54). `getElementById` then
finds no element, so the handler throws before anything is displayed. The
model follows the code: a refused batch leaves every error slot as it was.

## Model

| member | source | states |
|---|---|---|
| Text.IsWhiteSpace | app.js:96 | definition: the characters `trim` removes, ECMAScript's WhiteSpace and LineTerminator |
| Text.Trim | app.js:155-157 | the trimmed string is no longer than the input, is empty exactly when the input is all white space, and otherwise starts and ends with a non-white-space character |
| Text.TrimSlice | app.js:155-157 | trimming yields a contiguous slice of the input with only white space cut off before and after it |
| Text.TrimUnique | app.js:155-157 | for any split of a string into white-space prefix, core with non-white-space ends, and white-space suffix, trimming yields that core |
| Text.TrimIdempotent | app.js:96 | trimming an already trimmed value changes nothing |
| Text.TrimIgnoresPadding | app.js:96 | white space added around a value does not change its trimmed value |
| Text.StartsWith | app.js:59 | definition: `startsWith`, the string's prefix of the given prefix's length equals the given prefix |
| Text.Join | app.js:158 | a one-element list joins to its element, the empty list to the empty string, and a list with a non-empty first element to a non-empty string |
| Text.JoinSnoc | app.js:158 | joining a list with one more element appends the separator and that element, so the join keeps the list's order |
| Text.JoinInjective | app.js:158 | when no element is empty or contains the separator's first character, equal joined strings come from equal lists |
| Splice.ActualStart | app.js:90 | the start index of splice is an index into the list taken modulo its length whenever the start lies within one length of either end, and is clamped at the length past the end and at 0 before the start |
| Splice.RemoveAt | app.js:90 | splice(i, 1) removes exactly the element at the actual start when there is one, keeps the others in order and leaves the multiset otherwise unchanged; at or past the end nothing changes |
| Splice.RemoveAtKeeps | app.js:129-131 | a removal adds no element and keeps a duplicate-free list duplicate-free |
| Splice.RemoveAtRemoves | app.js:129-131 | removing index i of a duplicate-free list leaves it one shorter and without that element |
| DateValidation.ShortGroupBeforeDot | app.js:111 | the length of the one- or two-digit group directly followed by a dot at the start of the string, or 0 when there is no such group |
| DateValidation.MatchDate | app.js:111-114 | a successful match yields a one-or-two-digit day, a one-or-two-digit month and a four-digit year |
| DateValidation.MatchSound | app.js:111-114 | a successful match covers the whole string: day, dot, month, dot, year |
| DateValidation.MatchComplete | app.js:111-114 | every string of the form d.m.y with the regular expression's group shapes matches with exactly the groups d, m and y |
| DateValidation.DecimalValue | app.js:115-116 | the numeric value of a digit group is below 10, 100, 1000 or 10000 for one to four digits |
| DateValidation.DecimalValueOfDigits | app.js:115-116 | the numeric value of a one-, two- or four-digit group, computed digit by digit with leading zeros allowed |
| DateValidation.DaysInMonth | app.js:115-116 | a month has 28 to 31 days, and February has 29 exactly in Gregorian leap years |
| DateValidation.FullYear | app.js:115 | a non-negative year is read back unchanged exactly when it is at least 100, and is never read as a year below 100 |
| DateValidation.FromMonthStart | app.js:115 | counting days from a month's start always lands on a real date; within the month it is that day, past its end a later month, day 0 the month before |
| DateValidation.ConstructDate | app.js:115 | the constructed date is always a real calendar date with a month index 0..11 |
| DateValidation.RoundTrips | app.js:115-116 | definition: the date built from the three group values reads back the same day, month index and year |
| DateValidation.IsValidDate | app.js:110-117 | definition: `isValidDate`, the match followed by the read-back comparison; ValidDateOfGroups and ValidDateShape state its meaning |
| DateValidation.RoundTripsIff | app.js:115-116 | the read-back comparison succeeds exactly for a real Gregorian day and month of a year of at least 100 |
| DateValidation.ValidDateOfGroups | app.js:110-117 | d.m.y with regex-shaped groups is accepted exactly when it is a real Gregorian date whose year is at least 100 |
| DateValidation.ValidDateShape | app.js:110-117 | every accepted string is of the form d.m.y with regex-shaped groups naming a real date of a year of at least 100 |
| DateValidation.ValidDateCharacters | app.js:110-117 | an accepted string is 8 to 10 characters long and consists of digits and dots only |
| DateValidation.RejectsDayZero | app.js:115-116 | day 0 is rejected |
| DateValidation.RejectsMonthOutOfRange | app.js:115-116 | month 0 and every month from 13 on are rejected |
| DateValidation.RejectsTwoDigitYears | app.js:115-116 | every year 0000..0099 is rejected |
| DateExamples.NewYearAccepted | app.js:110-117 | 01.01.2025 is accepted |
| DateExamples.LeapDayAccepted | app.js:110-117 | 29.02.2024 is accepted |
| DateExamples.OneDigitFieldsAccepted | app.js:110-117 | 1.1.2024 is accepted |
| DateExamples.PaddedFieldsAccepted | app.js:110-117 | 01.01.2024 is accepted |
| DateExamples.FebruaryThirtyFirstRejected | app.js:110-117 | 31.02.2024 is rejected |
| DateExamples.DayThirtyTwoRejected | app.js:110-117 | 32.01.2024 is rejected |
| DateExamples.CommonYearLeapDayRejected | app.js:110-117 | 29.02.2023 is rejected |
| DateExamples.CenturyLeapDayRejected | app.js:110-117 | 29.02.1900 is rejected |
| DateExamples.EarlyYearRejected | app.js:110-117 | 01.01.0099 is rejected although it is a real date |
| Photos.IsImage | app.js:59 | definition: the file's type starts with `image/` |
| Photos.PhotoOf | app.js:62-66 | definition: the record `{data, name, type}` pushed for a file |
| Photos.PhotoOfLossless | app.js:62-66 | the pushed record loses nothing of the file: the file can be read back from it, and two files give the same record only when they are equal |
| Photos.ImageCount | app.js:58-59 | the number of image files of a batch is at most its length |
| Photos.ImagePhotos | app.js:58-70 | a completed batch adds exactly as many photos as it has image files |
| Photos.ImagePhotosContents | app.js:58-70 | every added photo has an image type and is the record of an image file of the batch, and every image file's record is added |
| Photos.ImagePhotosExtremes | app.js:58-70 | a batch without image files adds nothing, and a batch of image files only adds one photo per file |
| PendingReads.DropAsWritten | app.js:53-70 | the capacity check as written counts only completed photos: a batch that passes it starts one read per image file |
| PendingReads.DropCorrected | app.js:53 | the corrected check also counts the reads still pending |
| PendingReads.ReadFinished | app.js:61-66 | a finished read moves its photo to the end of the list and loses no photo |
| PendingReads.FinishAll | app.js:61-66 | when every read finishes, the list is the old list followed by the pending photos and nothing is pending |
| PendingReads.AsWrittenOverfills | app.js:53 | two batches of five images dropped before any read finishes end as ten photos |
| PendingReads.CorrectedKeepsCap | app.js:53 | with the corrected check, a batch never takes the list past five photos, counting the pending ones |
| PendingReads.ReadFinishedKeepsCap | app.js:61-66 | a finished read keeps the list within five photos |
| PendingReads.SettledBatch | app.js:53-70 | with no read pending both checks agree, and the batch's photos end up appended in batch order |
| Submission.PrefilledName | app.js:12-15 | definition: the first name, with a blank and the last name appended when there is one, or the input's value when there is no first name |
| Submission.PrefilledContact | app.js:16-18 | definition: the user name behind an @, or the input's value when there is no user name |
| Submission.PrefillReadsBack | app.js:11-19 | the name is exactly the first name when there is no last name, and the first name, a blank and the last name when there is one; the contact is the user name behind an @; absent fields leave the inputs alone |
| Submission.CheckForm | app.js:166-194 | the name and contact pass exactly when not all white space, the description exactly when at least ten characters remain after trimming, the dates exactly when one is selected |
| Submission.Passes | app.js:196 | definition: the form is sent only when all four checks pass |
| Submission.ChecksAreIndependent | app.js:166-194 | each check depends only on its own field |
| Submission.BuildPayload | app.js:154-163 | name, contact and description are the trimmed inputs, so each is empty exactly when its input is all white space and otherwise begins and ends with a non-white-space character; the dates field is the `", "` join of the list, which ValidDatesJoinInjective proves lossless; source and photos are carried unchanged |
| Submission.ValidDatesJoinInjective | app.js:158 | two lists of valid dates with the same `", "` join are the same list |
| Submission.PayloadDatesDetermineList | app.js:158 | the joined dates string of a list of valid dates determines that list and its order |
| Submission.MissingNameExample | app.js:166-198 | a form with an empty name fails only the name check and is not sent |
| Submission.CompleteSubmissionExample | app.js:154-198 | a complete form passes, and its single date is the payload's dates string |
| BookingForm.Shown | app.js:134-138 | definition: `showError` sets the slot's text to the message and displays it |
| BookingForm.Hidden | app.js:140-143 | definition: `hideError` stops displaying the slot and keeps its text |
| BookingForm.PayloadChecks | app.js:154-194 | the checks made on the payload's trimmed fields are the field checks of the raw inputs |
| BookingForm.Form.Valid | app.js:98-100 | definition: the class invariant; the date list is duplicate-free and every entry is a valid date, and there are at most five photos |
| BookingForm.Form.CurrentView | app.js:201-202 | definition: the view the three display flags show: the form alone is Editing, the loading indicator alone Submitting, the success message alone Succeeded, anything else Mixed |
| BookingForm.Form.CurrentPayload | app.js:154-163 | definition: the payload built from the form's current inputs, dates, photos and user |
| BookingForm.Form.constructor | app.js:11-19 | page load: empty lists, hidden errors, the form displayed, the name and contact inputs prefilled |
| BookingForm.Form.AddDate | app.js:94-108 | a valid new date is appended and the input cleared; a valid present one only clears the input; anything else keeps list and input and shows the format hint; the list stays duplicate-free and valid |
| BookingForm.Form.RemoveDate | app.js:129-132 | the list becomes its splice(i, 1) and stays duplicate-free and valid; a valid index drops exactly that date |
| BookingForm.Form.RemovePhoto | app.js:89-92 | the list becomes its splice(i, 1), one shorter for a valid index, unchanged past the end |
| BookingForm.Form.HandleFiles | app.js:52-72 | a batch that would pass five photos, counting all its files, is refused whole; otherwise the image files' photos are appended in batch order; the cap holds |
| BookingForm.Form.RunChecks | app.js:166-194 | all four checks run, and each shows its own error or hides it, touching no other slot |
| BookingForm.Form.Send | app.js:200-227 | the form is hidden and the loader shown; an accepted send records one create_lead message and arms the success timer, a thrown one restores the form |
| BookingForm.Form.Submit | app.js:151-228 | a failing form sends nothing and keeps its view; a passing one sends create_lead with the payload of the state at submission and moves to Submitting, or back to Editing when the bridge throws |
| BookingForm.Form.SuccessTimerFires | app.js:212-215 | the loader is hidden, the success message shown and the close timer armed |
| BookingForm.Form.CloseTimerFires | app.js:217-219 | the host is asked to close the app |
| BookingForm.SucceedingSession | app.js:151-228 | a passing form, submitted with the bridge accepting, ends on the success message with the host asked to close and exactly one create_lead message sent |

## Left out

- DOM rendering is not modelled. This covers `updateDateList`, `updatePhotoPreview`, the drag-and-drop styling and the click forwarding to the file input. None of them changes modelled state.
- `showNotification` and `alert` are user interface only. `console.error` and `console.log` are I/O.
- The host bridge calls `expand`, `enableClosingConfirmation`, `sendData`, `close` and `onEvent` are foreign calls. `sendData` is reduced to a boolean outcome. `close` is reduced to the `closeRequested` flag.
- `JSON.stringify` of the message is left out. The model keeps the message as a record.
- FileReader's base64 encoding is left out. A file's data URL is an opaque string carried on the file.
- The 2-second and 3-second delays are left out. Timers are counters of armed callbacks, and firing one is a method.
- BookingForm.Form.HandleFiles: every read is taken to succeed. The script installs no `onerror` handler, so a failed read pushes nothing, while the model adds one photo per image file. The same holds for `Photos.ImagePhotos` and `PendingReads`.
- BookingForm.Form.HandleFiles: the reads are taken to finish before the next event, so the photos are appended synchronously in batch order. The interleaving of reads with later events is modelled on values only, in `PendingReads`.
- Text.Trim: strings are sequences of characters. UTF-16 code units, surrogate pairs and the code points beyond the Basic Multilingual Plane are not distinguished. `length` is the sequence length.
- DateValidation.ConstructDate: the local time zone is left out. The model builds the date on the proleptic Gregorian calendar alone. In a time zone whose offset change skips a whole calendar day, the Date constructor moves that day onto the next one and the script rejects it, while the model accepts it. One such day is 30 December 2011 in Pacific/Apia. The time-value range limit is never reached by four-digit years.
- BookingForm.Form.Submit: a throwing `sendData` is taken to have delivered nothing. What the host does with a message it did receive is outside the script.
- Submitting again while the loading view is displayed is not modelled separately. The form is hidden then, so its submit event cannot fire.

## Findings

| source | as written | input that shows it | evidently intended | confidence | as-written member | corrected member |
|---|---|---|---|---|---|---|
| app.js:53 | the limit of five photos counts only the photos whose reads have completed | two drops of five image files each, the second before any read of the first has finished: both pass the check and ten photos end up in the list | count the reads still pending as well, so the list never holds more than five photos | not executed | PendingReads.AsWrittenOverfills | PendingReads.CorrectedKeepsCap |

In the class model, a batch's reads finish before the next event.
`PendingReads.SettledBatch` proves that under this assumption the check as
written and the corrected check agree. So `Form.HandleFiles` keeps the limit
of five photos as its invariant.
