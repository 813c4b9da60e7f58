# MCC Carpools: a Dafny model of the sign-up forms and the admission rules

MCC Carpools lets members of a climbing club sign up for carpools. Riders say
when they are free during the coming week and where they can be picked up.
Drivers offer drives from a pickup address. This project models the parts of
that system that have behaviour worth stating, with rendering, HTTP and the
database taken away:

- the rider form (`frontend/src/App.js`, component `Riders`): next week's
  seven day keys, the per-day lists of time windows (add, delete, edit one
  picker), the division checkboxes, the member roster built from the sheet,
  and the submit handler that checks the required fields and formats the
  payload;
- the driver form (component `Drivers`): the list of offered drives (add,
  delete, edit one picker) and the payload built on submit;
- the back end (`backend/app.py`): `get_region`, which puts a geocoded point
  into the named pickup divisions, and the admission logic of `add_driver`
  and `add_rider` over tables that are plain sequences of records.

Modules, one per concern:

| file | module | contents |
|---|---|---|
| wrappers.dfy | `Wrappers` | `Option` (null/None) and `Result` |
| text.dfy | `Text` | lower-casing and the substring test |
| listops.dfy | `ListOps` | delete-by-index as a filter, subsequences, distinct lists |
| calendar.dfy | `Calendar` | day numbers, weekdays, the next Monday, picker values (`Moment`) |
| riderform.dfy | `RiderForm` | rider form state as class `Riders` and its operations on values |
| driverform.dfy | `DriverForm` | driver form state as class `Drivers` and the payload map |
| regions.dfy | `Regions` | the region boxes, a reference classification, `GetRegion` |
| backend.dfy | `Backend` | requests, responses, classes `DriverTable` and `RiderTable` |

How the source's forms are kept:

- The React components become classes whose fields are the component state.
  Every handler is a method that reassigns the state. The handlers that only
  spread, filter or map are stated by pure functions (`AppendSlot`,
  `DropSlot`, `ToggleDivision`, `FormatDrives`). The handlers that write into
  a nested object in place (`HandleTimeChange`, `HandleDriveChange`) take the
  object out, update one property and store it back.
- The `reduce` that builds the initial week and the `forEach` that builds the
  formatted availability are loops with invariants.
- `get_region` is a method that appends to a local list. It is proved equal
  to `Classify`, a reference classification written over a table of region
  names and boxes. The region properties are lemmas about `Classify`.
- `add_driver` and `add_rider` are methods on table classes. Their contracts
  give the response and the whole new table for every path.

Representation choices:

- A day is a day number counted from 1970-01-01, a Thursday. So the weekday,
  with Sunday = 0 as dayjs's `day()`, is `(day + 4) % 7`. `today` is a
  parameter.
- Coordinates are exact `real`s. The box bounds are the source's decimal
  constants.
- The geocoder (`validate_address`) is a function parameter returning
  `Option<Coord>`. dayjs's `format(...)` calls are function parameters too
  (`dayLabel`, `fmt`, `fmtDate`, `fmtTime`); only their use is modelled.
- A decoded request body is a record whose fields are `Option`s. `None` is
  a key the JSON body lacks. Reading it raises `KeyError`, which the
  handler's `except` turns into status 500 with the quoted key as its text.
- JavaScript `null` and Python `None` are `Option.None`. A drive posted
  without a date gets the object key `"null"`, because JavaScript turns a
  computed key `[null]` into that string. A sheet row without a name column
  shows as `"undefined"` in the roster, as in a template literal.
- Python's `'Unknown' in region` is modelled literally: on the string
  'Unknown' it is a substring test, which succeeds, and on a list it is a
  membership test, which is proved never to succeed.

## Model

| member | source | states |
|---|---|---|
| Text.Lower | frontend/src/App.js:45 | lower-casing keeps the length and lower-cases each character in place |
| Text.LowerIdempotent | backend/app.py:99 | lower-casing an already lower-cased string changes nothing |
| Text.Contains | backend/app.py:99 | Python's `in` on strings: the left-to-right search succeeds exactly when the needle occurs at some position of the string, the empty needle included |
| ListOps.RemoveAt | frontend/src/App.js:128 | filtering out position `index` removes exactly that element and keeps the order of the rest; an index out of range leaves the list as it was |
| ListOps.RemoveAtRemovesOne | frontend/src/App.js:242-245 | deleting a drive or window in range shortens the list by one and removes exactly that element from its multiset |
| ListOps.RemoveAtAfterAppend | frontend/src/App.js:238-245 | deleting the entry just appended gives back the list from before |
| ListOps.DistinctCardinality | frontend/src/App.js:44-47 | seven pairwise different day keys make seven keys |
| Calendar.Weekday | frontend/src/App.js:41 | a day's weekday is in 0..6 |
| Calendar.NextMondayOffset | frontend/src/App.js:41 | the offset to next week's start is in 1..7 and lands on weekday 1 (Monday) |
| Calendar.StartOfNextWeek | frontend/src/App.js:40-41 | next week starts on the first Monday strictly after today, at most seven days on, with no Monday in between |
| Calendar.WeekKeys | frontend/src/App.js:42 | next week has exactly seven day labels |
| RiderForm.InitialAvailability | frontend/src/App.js:39-48 | the initial availability has one key per day of next week (seven when the labels differ), each mapped to an empty list |
| RiderForm.AppendSlot | frontend/src/App.js:118-123 | adding a window appends one empty window to that day; earlier windows and every other day are unchanged |
| RiderForm.DropSlot | frontend/src/App.js:125-130 | deleting removes exactly window `index` of that day, keeping the rest in order; out of range nothing changes; other days are untouched |
| RiderForm.SetSlotField | frontend/src/App.js:112-116 | a picker change sets one property of one window; the other property, the other windows, the list lengths and the other days are unchanged |
| RiderForm.DropUndoesAppend | frontend/src/App.js:118-130 | deleting the window just added restores the previous availability |
| RiderForm.SetSlotFieldLastWins | frontend/src/App.js:112-116 | the latest change of a property is the one that stays |
| RiderForm.SetSlotFieldCommutes | frontend/src/App.js:112-116 | setting a window's start and its end gives the same state in either order |
| RiderForm.ToggleDivision | frontend/src/App.js:72-74 | a checkbox change sets that division's flag; every other flag keeps its value |
| RiderForm.ToggleDivisionBack | frontend/src/App.js:72-74 | unticking what was ticked (or the reverse) restores the divisions |
| RiderForm.ToggleKeepsDivisionKeys | frontend/src/App.js:49-56 | changing one of the six divisions keeps exactly the six keys |
| RiderForm.RosterEntryOf | frontend/src/App.js:61-65 | a roster e-mail is empty exactly when the row has no (or an empty) uniqname |
| RiderForm.RosterEmailRoundTrip | frontend/src/App.js:63 | a non-empty roster e-mail is the uniqname followed by "@umich.edu", so the uniqname can be read back |
| RiderForm.RosterOf | frontend/src/App.js:61-65 | the roster has one entry per sheet row, in the rows' order |
| RiderForm.FindByName | frontend/src/App.js:147 | the lookup returns the first entry with the chosen name, and nothing exactly when no entry has it |
| RiderForm.FormatSlot | frontend/src/App.js:90-94 | a posted window has no driver, keeps a null start or end null and formats a picked one |
| RiderForm.FormatSlots | frontend/src/App.js:90 | one posted window per window of the day, in order |
| RiderForm.FormatAvailability | frontend/src/App.js:87-95 | the formatted availability has the same days and, per day, the same windows each formatted |
| RiderForm.FormattedShape | frontend/src/App.js:87-95 | in the posted availability every window has driver null and a null time wherever none was picked |
| RiderForm.Riders.constructor | frontend/src/App.js:35-56 | the form starts with an empty name and roster, next week's empty days and every division unchecked |
| RiderForm.Riders.LoadRoster | frontend/src/App.js:58-69 | a resolved sheet fetch replaces the roster and nothing else |
| RiderForm.Riders.SelectName | frontend/src/App.js:146-150 | picking a name also sets the e-mail to that member's address, or empty when none matches |
| RiderForm.Riders.HandleDivisionChange | frontend/src/App.js:72-74 | only the divisions change, as ToggleDivision says |
| RiderForm.Riders.AddTimeSlot | frontend/src/App.js:118-123 | only the availability changes, as AppendSlot says |
| RiderForm.Riders.DeleteTimeSlot | frontend/src/App.js:125-130 | only the availability changes, as DropSlot says |
| RiderForm.Riders.HandleTimeChange | frontend/src/App.js:112-116 | only the availability changes, as SetSlotField says |
| RiderForm.Riders.HandleSubmit | frontend/src/App.js:76-97 | an empty name is refused with "Name is required.", then an empty e-mail with "Email is required."; a payload exists exactly when both are present and carries the name, e-mail, divisions and the formatted availability |
| DriverForm.SetDriveField | frontend/src/App.js:247-251 | a picker change sets one property of one drive; the length and every other drive and property are unchanged |
| DriverForm.SetDriveFieldUnchanged | frontend/src/App.js:247-251 | writing back the value a drive already holds leaves the list as it was |
| DriverForm.FormatDrive | frontend/src/App.js:258-266 | a posted drive is a one-key object keyed by its formatted date ("null" without one) holding a one-element list; capacity is null exactly when the field is empty; null times stay null |
| DriverForm.FormatDrives | frontend/src/App.js:258-267 | one posted entry per drive, in order |
| DriverForm.FormattedDrivesShareCapacity | frontend/src/App.js:264 | every posted drive carries the same capacity, the form's |
| DriverForm.Drivers.constructor | frontend/src/App.js:230-235 | the form starts with empty text fields and no drives |
| DriverForm.Drivers.HandleAddDrive | frontend/src/App.js:238-240 | one empty drive is appended; nothing else changes |
| DriverForm.Drivers.HandleDeleteDrive | frontend/src/App.js:242-245 | exactly drive `index` is removed, the rest keep their order; out of range nothing changes |
| DriverForm.Drivers.HandleDriveChange | frontend/src/App.js:247-251 | only the drive list changes, as SetDriveField says |
| DriverForm.Drivers.HandleSubmit | frontend/src/App.js:253-268 | the payload carries name, e-mail and address unchecked and one formatted entry per drive, in order |
| Regions.GetRegion | backend/app.py:76-102 | the hand-written chain of box tests returns exactly the reference classification |
| Regions.ClassifyUnfolded | backend/app.py:77-100 | testing the regions one after another in the fixed order builds the reference list |
| Regions.MentionsPierpont | backend/app.py:99 | the address rule holds exactly when "pierpont" occurs somewhere in the lower-cased address |
| Regions.RegionListedIff | backend/app.py:79-100 | a region is listed exactly when its box contains the point (bounds included) or, for pierpont, the address mentions it |
| Regions.ClassifyOrdered | backend/app.py:76-102 | a list result is non-empty and follows the order kerrytown, central, hill, lower_bp, upper_bp, pierpont |
| Regions.UnknownIff | backend/app.py:102 | 'Unknown' is returned exactly when no box contains the point and the address does not mention pierpont |
| Regions.PierpontByAddressOnly | backend/app.py:99-100 | pierpont is listed exactly when the lower-cased address contains "pierpont", whatever the coordinates |
| Regions.KerrytownCentralOverlap | backend/app.py:80-85 | on the shared band of latitudes a point is listed in both kerrytown and central |
| Regions.KerrytownHillOverlap | backend/app.py:80-89 | on the shared strip of longitudes a point is listed in both kerrytown and hill |
| Regions.ListedNamesKnown | backend/app.py:76-102 | every listed name is one of the six regions, never "Unknown" |
| Backend.KeyErrorResponse | backend/app.py:173-174 | a missing key answers 500 with an error body |
| Backend.MissingDriverKey | backend/app.py:150-154 | no key is missing exactly when name, email, address and drives are all present |
| Backend.DriverRequestOf | frontend/src/App.js:254-268 | the driver form always sends all four keys, so its requests never take the 500 path |
| Backend.UnknownInIff | backend/app.py:162 | the `'Unknown' in region` test rejects exactly the 'Unknown' result |
| Backend.UnknownIn | backend/app.py:162 | `'Unknown' in region` succeeds on the string 'Unknown' and fails on any list of the six region names |
| Backend.DriverTable.AddDriver | backend/app.py:147-174 | a missing key answers 500, a failed geocode or an 'Unknown' region answers 400, all with the table unchanged; otherwise exactly one driver is appended whose region is the classification's list, and every stored driver keeps a non-empty, ordered region list |
| Backend.MissingRiderKey | backend/app.py:195-199 | no key is missing exactly when name, email, availability and divisions are all present |
| Backend.RiderRequestOf | frontend/src/App.js:97 | the rider form always sends all four keys |
| Backend.FirstWithName | backend/app.py:202-203 | the duplicate query finds nothing exactly when no stored rider has the name, and otherwise the first stored rider with it |
| Backend.AppendNamesUnique | backend/app.py:53 | appending a rider keeps the names unique exactly when the name is not already taken |
| Backend.RiderTable.AddRider | backend/app.py:192-213 | a missing key answers 500 and a taken name 400, with the table unchanged; otherwise exactly one record is appended, and names stay unique |

## Left out

- Rendering, routing, the pickers' UI and the HTTP calls (`axios`, `alert`, `console`): only the state they read and write is modelled.
- The text fields' `onChange` handlers are plain assignments to the public fields of `Riders` and `Drivers` and have no methods of their own.
- Availability keys are a Dafny `map`, which has no order. The source's object keeps the seven days in insertion order, Monday first, and the formatted copy keeps that order too.
- RiderForm.Riders.HandleTimeChange: the source writes into a slot object that the previous state shares after its shallow copy, so the old state changes too. The model has one current state and does not capture that aliasing.
- DriverForm.Drivers.HandleDriveChange: the source writes into a drive object that the previous list shares after its shallow copy, so the old list changes too; that aliasing is not captured either.
- Handlers that throw a `TypeError` in the source are given preconditions instead: adding or deleting a window for a day that is not a key, and a picker change for an index out of range. The UI calls them only with existing days and indices.
- Text.Lower: maps only the ASCII letters A-Z. JavaScript's `toLowerCase` and Python's `lower` also map other Unicode letters.
- dayjs's formatting and local time zone are parameters. Nothing is assumed about them beyond being functions.
- RiderForm.InitialAvailability: promises seven keys only when the seven lower-cased day labels differ, because the date format is a parameter; the real format gives seven different labels.
- Floating-point rounding of the geocoder's coordinates is not modelled; box tests are exact.
- Google Sheets (`get_google_sheets_data`, `fetch_sheets_data`), Google Maps geocoding, credential files, environment configuration and database set-up are left out as foreign I/O. The sheet fetch's result enters the model as the rows given to LoadRoster.
- The GET listing endpoints (`get_drivers`, `get_riders`) are left out. They only project the tables.
- Database ids, commit failures and column constraints other than the unique rider name are not modelled. So are request bodies that are not JSON objects or whose values have other JSON types than the front end sends.
- The duplicate-name query compares names exactly; a case-insensitive database collation is not modelled.
