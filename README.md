# Gym Tracker in Dafny

Gym Tracker is a personal habit tracker. A browser client (`frontend/app.js`)
logs the user in, shows a month calendar of training and supplement
check-ins, counts the month's check-ins on a dashboard, and sends check-ins,
supplements and the body profile to a small HTTP service (`backend/main.py`).
The service keeps users, profiles, supplements, check-ins, workouts and
photos in SQLite tables whose keys are declared in `backend/db.py`.

This project models both halves separately, because their request formats
differ (see "Left out").

## The client

The client's module-level variables become the fields of the class
`Session.Client`. The response to each request is a parameter of the method
that consumes it: `Reply(ok, status, data)`, or `NetworkError` for a
rejected fetch, which throws out of the awaiting function.

- The loaders rebuild `CHECKINS_MAP` and `SUPP_MAP` in loops. They are
  proved against the folds `Adherence.CheckinRows` and `Adherence.SuppRows`.
  Lemmas about those folds state which keys they hold and that the last row
  wins.
- `renderCalendar` is proved against `Adherence.CalendarCells`. The grid has
  the padding cells, then one cell per day, and each cell holds its
  tri-state tags.
- The day-click prompt is parsed by `Adherence.ParseClick`. A lemma shows it
  inverts the joining of words.
- Month navigation moves a `Dates.YearMonth` cursor. Login, registration and
  the two form actions are split at their awaits. A "Begin" method holds the
  synchronous guard; a "Finish" method consumes the replies.
- Supporting functions:
  - JavaScript values: `JsValue` (truthiness, `?.` access, `String(x)`).
  - Strings: `Text` (trim, split on whitespace, ASCII lower-casing,
    decimal numerals, substring search, code-point order).
  - Dates: `Dates` (Gregorian calendar, weekday, `isoDate`).

## The service

The tables are maps held by the class `Backend.Store`, keyed by their
UNIQUE columns:
- users by e-mail;
- profile by user;
- supplements as a set of (user, name);
- check-ins by (user, day);
- supplement check-ins by (user, day, name);
- workouts by id.

Each endpoint is a method or, when it only reads, a function. The caller's
id is a parameter, as `auth_user` produces it. Supporting modules:
- `Auth`: `auth_user` and e-mail normalisation.
- `Reco`: `compute_reco`.
- `SqlLike`: SQLite's LIKE.
- `Photos`: `os.path.splitext` and the upload checks.

## Model

| member | source | states |
|---|---|---|
| Helpers.SafeText | frontend/app.js:19-24 | null/undefined give "", strings are kept, numbers and booleans go through String(x); only arrays and objects are stringified |
| Helpers.SafeDetailOfServiceError | frontend/app.js:26-32 | for the service's `{"detail": text}` errors the message is that text |
| Helpers.SafeDetailOfFalsy | frontend/app.js:26-27 | a falsy body gives no message |
| Helpers.SafeDetail | frontend/app.js:26-32 | a falsy body gives ""; a string body is the message; a defined `detail` is shown through safeText whatever its kind; `message` only when `detail` is undefined; any other body through safeText |
| Helpers.ErrorText | frontend/app.js:251 | `safeDetail(data) \|\| fallback`: a non-empty detail is the text shown, the fallback only when the detail is empty |
| Helpers.ParseIntNaN | frontend/app.js:47 | NaN exactly when no digit follows the leading whitespace and an optional sign; a negative value only after a minus sign |
| Helpers.ParseIntRoundTrip | frontend/app.js:47 | parseInt reads back any integer written in decimal, whatever non-digit text follows |
| Helpers.ClampInt | frontend/app.js:46-50 | the result is min for text that is not a number, lies in [min, max] when min <= max, and is the number itself when it already lies there |
| Dates.DaysInMonth | frontend/app.js:474 | 28 to 31 days; 29 exactly for February of a leap year; 31 exactly for the seven long months |
| Dates.Weekday | frontend/app.js:472-473 | getDay of a date lies in 0..6, Sunday being 0 |
| Dates.WeekdayAnchors | frontend/app.js:472-473 | 1 January 1970 is a Thursday and 1 January 2025 a Wednesday |
| Dates.NextMonthStartDay | frontend/app.js:472-474 | the next month starts on the weekday this month's length shifts this month's start to |
| Dates.IsoDate | frontend/app.js:39-44 | the key is the year followed by `-MM-DD`: its dashes sit six and three characters from the end |
| Dates.IsoDateRoundTrip | frontend/app.js:39-44 | the date string parses back to the same year, month number and day |
| Dates.IsoDateInjective | frontend/app.js:39-44 | distinct dates give distinct strings, so they are distinct map keys |
| Dates.IsoDateIsFullDate | frontend/app.js:39-44 | for four-digit years and real days the string is an RFC 3339 section 5.6 full-date |
| Dates.Prev | frontend/app.js:837-840 | one month back: a valid cursor whose month index is one less |
| Dates.Next | frontend/app.js:841-844 | one month forward: a valid cursor whose month index is one more |
| Dates.CursorWraps | frontend/app.js:837-844 | January back gives December of the year before, December forward gives January of the next |
| Dates.CursorRoundTrip | frontend/app.js:837-844 | forward then back, or back then forward, returns to the same month |
| Dates.AsWrittenAgreesOutsideTwoDigitYears | frontend/app.js:837-844 | outside the years 0..99 the Date arithmetic as written is exactly Prev and Next |
| Dates.AsWrittenRoundTripFails | frontend/app.js:837-844 | from January of the year 100, back then forward lands in January 2000 |
| Adherence.FileRowsKeys | frontend/app.js:386-388 | after filing rows, a key is in the map exactly when some row has it |
| Adherence.FileRowsLastWins | frontend/app.js:386-388 | a key holds the value of the last row with that key |
| JsValue.NullishFree | frontend/app.js:400-403 | the elements before the count are neither null nor undefined, and the element at the count is, so a loop reading a property of each element throws there |
| Adherence.SuppKeyInjective | frontend/app.js:401 | for dates without ':' the `date::id` key determines the date and the id |
| Adherence.CountOnes | frontend/app.js:572-573 | the count of values equal to 1 never exceeds the map size |
| Adherence.CountOnesStore | frontend/app.js:572-573 | storing one value moves the count by exactly the change of that key |
| Adherence.CountOnesIsDone | frontend/app.js:498-573 | the dashboard counts exactly the keys the calendar marks as done |
| Adherence.Dashboard | frontend/app.js:568-579 | each count is the number of keys whose value is exactly 1, bounded by its map's size; the photo count is the list's length |
| Adherence.MarkOf | frontend/app.js:498-507 | 1 is done, 0 is missed, any other value (absent included) shows no tag |
| Adherence.CalendarShape | frontend/app.js:473-509 | `start` padding cells (startDay, the weekday of the 1st), then the cells of days 1..n in order: the cell of day d sits at start + d - 1 |
| Adherence.DayCellTags | frontend/app.js:486-508 | a day cell carries its number and isoDate key, and a training tag exactly when the stored value is 1 or 0 |
| Adherence.SuppTagsNotTrained | frontend/app.js:504-508 | every tag drawn for a supplement is a supplement tag, never a training tag |
| Adherence.ParseClick | frontend/app.js:515-561 | no input or "" cancels; a trimmed "1" or "0" is a training check-in with that flag, and a training check-in only comes from those; a supplement command has a lower-case name and a 0/1 flag |
| Adherence.ParseTrimmed | frontend/app.js:518-561 | exactly "1" and "0" are training commands, with did_train 1 and 0 |
| Adherence.SuppCommand | frontend/app.js:534-561 | two or more tokens make a supplement command whose took is 1 exactly when the last token is "1"; fewer are invalid |
| Adherence.ClickOfJoinedWords | frontend/app.js:517-540 | words typed with single spaces parse to the supplement command of those words |
| Adherence.ClickSuppRoundTrip | frontend/app.js:534-538 | the name is the lower-cased words before the last, joined by one space, and took is 1 exactly for a last word "1" |
| Adherence.ClickSingleWordInvalid | frontend/app.js:534-561 | a single word other than 1 and 0 is an invalid format |
| Adherence.FindSupplement | frontend/app.js:540 | the first supplement whose lower-cased name equals the typed one; NotFound exactly when none matches; a nullish entry before a match throws |
| Adherence.ClickEffectOf | frontend/app.js:511-561 | a dismissed or empty answer does nothing and an unreadable one alerts; "1"/"0" post a check-in for the clicked day with that value; a supplement command posts for the clicked day exactly when the name is found, alerts when none matches and throws at a nullish entry, each as an iff |
| Session.HeightOf | frontend/app.js:758 | the height sent lies in 0..300; an empty or non-numeric field gives 0; a number in range is kept |
| Session.Client.constructor | frontend/app.js:111-122 | the token is read back from storage, the cursor is the current month, every cache is empty |
| Session.Client.LoadMe | frontend/app.js:363-368 | ME is replaced by the body exactly on an ok reply, and the result says so |
| Session.Client.LoadSupplements | frontend/app.js:370-377 | SUPPLEMENTS is the array body of an ok reply, else empty; a rejected request leaves it |
| Session.Client.LoadMonthCheckins | frontend/app.js:379-390 | CHECKINS_MAP is emptied, then holds CheckinRows of the array body, and stays empty on failure |
| Session.Client.LoadMonthSuppCheckins | frontend/app.js:392-405 | SUPP_MAP is emptied, then holds SuppRows of the rows filed before any nullish row |
| Session.Client.LoadWorkouts | frontend/app.js:407-410 | WORKOUTS is the array body of an ok reply, else empty |
| Session.Client.LoadProfile | frontend/app.js:412-415 | PROFILE is a truthy body of an ok reply, else null |
| Session.Client.LoadPhotos | frontend/app.js:417-428 | PHOTOS is the array body of an ok reply, else empty, and the result reports the reply's ok |
| Session.Client.RenderCalendar | frontend/app.js:462-566 | the cells are CalendarCells of the cursor's month; a nullish supplement throws after the padding |
| Session.DayTags | frontend/app.js:496-508 | the training tag, then one tag per supplement with a stored 1 or 0, in list order; it throws exactly when some supplement is nullish |
| Session.TrainingTag | frontend/app.js:498-500 | ✅ exactly for a stored 1, ❌ exactly for a stored 0, nothing otherwise |
| Session.SupplementTag | frontend/app.js:504-507 | the tag of one supplement, looked up under `<day>::<id>` |
| Session.PadCells | frontend/app.js:476-482 | exactly n padding cells |
| Session.Client.Refresh | frontend/app.js:825-832 | the three loaders in order, then the calendar: the lists and both maps are the loaders' results, maps not yet reached keep their values, and it throws exactly on a rejected request or a nullish supp-checkin row or supplement |
| Session.Client.PrevMonth | frontend/app.js:837-840 | the cursor becomes Prev of the old cursor, one month index less |
| Session.Client.NextMonth | frontend/app.js:841-844 | the cursor becomes Next of the old cursor, one month index more |
| Session.Client.Logout | frontend/app.js:344-359 | token, storage entry, ME, every list and map, PROFILE and the message are reset; nothing else changes |
| Session.Client.BeginAuth | frontend/app.js:232-305 | a click while busy is ignored; an empty trimmed e-mail or empty password is refused with a message and the flag cleared; otherwise the flag is set |
| Session.Client.AdoptToken | frontend/app.js:264-332 | the token is adopted and stored, and forgotten again when `/me` fails |
| Session.Client.FinishLogin | frontend/app.js:306-342 | logged in exactly when login is ok with a token and `/me` is ok; each failure leaves its own message and the old token; a failed `/me` forgets the token, a rejected `/me` leaves it adopted and stored; the flag is always cleared |
| Session.Client.FinishRegister | frontend/app.js:249-287 | logged in, with its message, exactly when register, login and `/me` all succeed; earlier failures keep token and storage; a failed `/me` forgets the token, a rejected `/me` leaves it stored; the flag is always cleared |
| Session.Client.BeginAddSupplement | frontend/app.js:694-699 | a click while busy is ignored; an empty trimmed name clears the flag; otherwise the name is sent |
| Session.Client.FinishAddSupplement | frontend/app.js:700-716 | an error reply alerts its detail; the busy flag is cleared on every path |
| Session.Client.BeginSaveProfile | frontend/app.js:754-760 | a click while busy is ignored; otherwise the height is clamped to 0..300 and sent with the weight and biotype |
| Session.Client.FinishSaveProfile | frontend/app.js:762-778 | an ok reply stores the sent profile; an error reply alerts; the busy flag is cleared on every path |
| Session.BusyFlagsStuckAsWritten | frontend/app.js:694-778 | as written, a rejected request leaves addSuppBusy and profileBusy set |
| Auth.AuthUser | backend/main.py:40-48 | the user id exactly for a header starting with "bearer " in any case and a token that decodes; otherwise 401, with the "no token" detail when the scheme is missing |
| Auth.AuthUserOfBearer | backend/main.py:40-48 | `Bearer <token>` in any capitalisation authenticates as the token's user |
| Auth.NormalizeEmail | backend/main.py:53-70 | the normalised address is lower-case with no blank at either end |
| Auth.NormalizeEmailIdempotent | backend/main.py:53-70 | normalising twice is normalising once |
| Auth.NormalizeEmailIgnoresCase | backend/main.py:53-70 | an address and its lower-case form normalise alike |
| Auth.NormalizeEmailIgnoresLeadingBlanks | backend/main.py:53-70 | leading blanks do not change the normalised address |
| Reco.GoalOf | backend/main.py:86-101 | "hiper" or "massa" selects the bulking plan before "emag", "defin" or "cut" selects the cutting plan |
| Reco.BiotypeOf | backend/main.py:87-110 | "ecto" is tested before "endo", which is tested before "meso" |
| Reco.Bmi | backend/main.py:83-84 | absent exactly when the height is not positive; otherwise the value times the height in metres squared is the weight |
| Reco.ComputeReco | backend/main.py:82-119 | bmi is absent exactly when the height is not positive, and otherwise is weight over height in metres squared; the texts are those of the selected goal and biotype |
| Reco.NoneIsEmpty | backend/main.py:86-87 | a missing goal or biotype behaves as "" and selects the default plan and note |
| Reco.CaseInsensitive | backend/main.py:86-87 | lower-casing the goal and biotype beforehand changes nothing |
| SqlLike.LikeAny | backend/main.py:199 | a trailing `%` matches any rest |
| SqlLike.LikePrefix | backend/main.py:197-204 | `LIKE q%` with a wildcard-free q is an ASCII case-insensitive prefix test |
| Photos.Ext | backend/main.py:262 | the extension is a suffix of the name that starts with a dot and holds no other dot or '/' |
| Photos.ExtOfName | backend/main.py:262 | `<stem>.<ext>` splits at the last dot when the stem is not all dots |
| Photos.HiddenNameHasNoExt | backend/main.py:262 | a name such as ".jpg" has no extension |
| Photos.PhotoName | backend/main.py:262-272 | accepted exactly when the lower-cased extension is one of the four and the size is at most 10 MiB; the type is checked first; the name is `<day>_<ts><ext>` |
| Photos.PhotoNameOfImage | backend/main.py:262-272 | an image with any capitalisation of an allowed extension is accepted when small enough, under the lower-cased extension |
| Photos.PhotoNameSeparators | backend/main.py:272-273 | the stored name contains '/' exactly when the taken day or timestamp does |
| Backend.Flag | backend/main.py:175-191 | the stored flag is 0 or 1, and 1 exactly for a non-zero input |
| Backend.Store.constructor | backend/db.py:14-82 | every table starts empty, and the store is valid |
| Backend.Store.Register | backend/main.py:51-66 | a password shorter than 4 is refused before any insert; a taken normalised address is refused; otherwise the user gets the next id; validity is kept |
| Backend.Store.Login | backend/main.py:68-75 | the id exactly when the normalised address exists and the password verifies; otherwise 401 |
| Backend.LoginIgnoresCaseAndBlanks | backend/main.py:70 | a login typed in another case or with leading blanks reaches the same account |
| Backend.Store.SaveProfile | backend/main.py:121-141 | the caller's profile row is inserted or replaced, other rows unchanged, and the answer is compute_reco of the posted values |
| Backend.Store.GetProfile | backend/main.py:143-147 | the caller's row, absent exactly when there is none |
| Backend.Store.AddSupp | backend/main.py:150-158 | a blank name is refused with 400; otherwise the stripped name is added; adding an existing name changes nothing |
| Backend.Store.ListSupp | backend/main.py:160-164 | exactly the caller's names, each once, in strictly ascending order |
| Backend.Store.SetCheckin | backend/main.py:167-176 | the one row of (user, day) holds 1 or 0 by the truthiness of trained; no other row changes |
| Backend.Store.SetSuppCheckin | backend/main.py:178-192 | the one row of (user, day, name) holds 1 or 0 by the truthiness of took; no other row changes |
| Backend.Store.MonthCheckins | backend/main.py:194-210 | only the caller's rows whose day matches `<month>-%`, with their stored values |
| Backend.MonthCheckinsByPrefix | backend/main.py:194-210 | for a month without wildcards, exactly the caller's days that start with `<month>-` |
| Backend.Store.SaveWorkout | backend/main.py:212-229 | text that is not JSON is refused with 400; otherwise the row is added under the next id and the owner can read it back |
| Backend.Store.GetWorkout | backend/main.py:240-249 | the row exactly when both the id and the owner match; otherwise 404 |
| Backend.Store.UploadPhoto | backend/main.py:252-285 | the result is PhotoName's verdict; an accepted photo appends one row with the stored name; a refused one changes nothing |

## Left out

- Case mapping is ASCII-only. JavaScript's toLowerCase and Python's lower() map all of Unicode.
- JSON numbers are integers. Floats, NaN and `Number(...)` conversion are not modelled, so the weight field is an opaque value.
- `String(x)` of a number is its decimal numeral.
- JSON.stringify is an uninterpreted function parameter.
- Objects with a `__proto__` key are not modelled.
- BMI rounding and toFixed are left out. `Reco.ComputeReco` computes on exact reals, not IEEE floats.
- JWT encoding and decoding, and bcrypt, are parameters:
  - `decode` stands for verifying a token and reading `sub`;
  - `hashed` is the stored hash;
  - `verify` checks a password against a hash.
- Token expiry and the clock are not modelled. The photo timestamp `ts` is a parameter.
- The DOM, event binding, `prompt`/`alert` and monthLabelPT are not modelled.
- localStorage is the `stored` field.
- The fetch plumbing of apiFetch is replaced by the `Response` parameter.
- Requests are modelled as sequential. Interleaved async clicks are not modelled; the busy flags are a sequential guard.
- bootApp after a login runs inside the same try, so a failure there would also show the connection message. That is not modelled.
- The client's Date object covers a bounded range. `Dates` uses unbounded years.
- renderRecommendation, renderWorkouts, renderStats and the photo renderer only draw. They are not modelled.
- renderSuppList is not modelled. During a refresh it runs before renderCalendar and would be the first to throw on a nullish supplement, reading `s.name`. The model attributes that throw to RenderCalendar. Whether the refresh throws is the same either way.
- Session.Client.LoadPhotos: the `status` and `detail` of a failed listing are not returned, only the ok flag. Their callers are not part of this model.
- Supplement removal only shows an alert, so it is not modelled.
- The client's saveWorkout and uploadPhoto are not modelled. They post forms the client side does not otherwise constrain.
- The service's list_workouts, list_photos and get_photo_file are not modelled. Neither are the file writes, `os.makedirs` or FileResponse.
- Backend.Store.UploadPhoto: the file is written before the row is inserted, so a failed write appends no row. One example is a taken day holding '/' (see Photos.PhotoNameSeparators). The model appends a row for every accepted photo, because the file system is not modelled.
- The columns `created_at` and `updated_at`, and the row ids the listings return, are not modelled.
- The service ignores foreign keys, because SQLite does not enforce them by default, and so does the model.
- Backend.Store.MonthCheckins: the `supp` list is a set, because the query has no ORDER BY.
- Backend.Store.UploadPhoto: the endpoint answers `{"ok": true}`. The model returns the stored name so that the contract can state it.
- The two halves are not composed, because their requests do not match:
  - the client posts JSON `{date, did_train}` where the service reads form fields `day` and `trained`;
  - the client expects `[{id, name}]` from `/supplements` where the service returns `{"items": [names]}`;
  - the client calls `/supp_checkins?year&month`, which the service does not define;
  - the service's `/checkins` takes a single `month`.

## Findings

| source | as written | input that shows it | evidently intended | confidence | as-written member | corrected member |
|---|---|---|---|---|---|---|
| frontend/app.js:837-844 | `new Date(y, m ± 1, 1)` reads a year between 0 and 99 as 1900 + year | from January of the year 100, prevMonth gives December 99, and nextMonth then gives January 2000 | a move of exactly one month that nextMonth undoes | low (year 100 is far outside normal use), not executed | Dates.PrevAsWritten, Dates.NextAsWritten, Dates.AsWrittenRoundTripFails | Dates.Prev, Dates.Next, Dates.CursorRoundTrip |
| frontend/app.js:694-716 | addSupplement clears addSuppBusy only after an error reply and after a completed refresh, with no try/finally | a rejected fetch, for example with the network down, leaves the flag set, and every later click returns at once | the flag is cleared on every path, as doLogin and doRegister do with `finally` | high, not executed | Session.AddSuppBusyAsWritten, Session.BusyFlagsStuckAsWritten | Session.Client.FinishAddSupplement |
| frontend/app.js:754-778 | saveProfile clears profileBusy only on its two returns, with no try/finally | a rejected fetch leaves the flag set, so the profile can no longer be saved | the flag is cleared on every path | high, not executed | Session.ProfileBusyAsWritten, Session.BusyFlagsStuckAsWritten | Session.Client.FinishSaveProfile |
