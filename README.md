# Zoom license rotation — verified model

This project models the core of a small Python service that moves a limited
pool of Zoom licenses between lecturers day by day. Each morning
`manage_licenses` reads the teaching schedule (day name → e-mails) and works
out who taught yesterday but not today. Those users lose their license
unless they are on the `EXEMPT_USERS` list. Users who teach today but did
not yesterday receive a license. Every call is made once. A refusal or an
exception is recorded as one failure entry and processing goes on. The run
ends with a summary of counts and failure lines.

The model has six modules: four follow the source files, and two support them:

- `App` (app.dfy) models `manage_licenses`:
  - the roster diff, as the pure function `Reconcile`;
  - the two apply loops, as the method `ApplyAll` over an `Actuator` object;
  - the count arithmetic and the failure formatter.
- `DayUtils` (day_utils.dfy) models `get_day_info` and `get_day_schedule`. Today is an input (a proleptic Gregorian day number) rather than a clock reading.
- `Configuration` (configuration.dfy) models:
  - the `Config` class body evaluated against an environment map;
  - the `EXEMPT_USERS` parser;
  - `validate_config`.
- `GetSchedule` (get_schedule.dfy) models the row-grouping loop of `get_email_schedule`, as the method `GroupRows`. It is proved equal to the reference grouping `Grouped`.
- `Strings` (strings.dfy) models the Python string operations used: `strip`, `split`, `join`, `upper` and slicing. `Wrappers` (wrappers.dfy) holds `Option`.

The license API (`unassign_license`, `assign_license`) is the class
`App.Actuator`:
- It has a fixed answer function from a call to an outcome: success, refusal, or an exception with its text.
- It has a `log` field that each call appends to.

Python set iteration is the method `App.SetToSeq`. It enumerates a set in an arbitrary order, once per element.

## Model

| member | source | states |
|---|---|---|
| App.Reconcile | app.py:49-68 | unassign and assign sets are disjoint; users on both rosters are in neither; unassign and exempted partition yesterday − today by membership in the exempt list; assign is exactly today − yesterday (each as an if-and-only-if) |
| App.NotExempt | app.py:54-55 | the unassign comprehension keeps exactly the departing users not in the exempt list |
| App.OnlyExempt | app.py:58-59 | the exempted comprehension keeps exactly the departing users in the exempt list |
| App.ExemptionSplitsDepartures | app.py:54-59 | the two comprehensions together are as long as the departures they filter, so each departing user lands in exactly one |
| App.FiltersKeepDistinct | app.py:54-59 | filtering a list without repeats yields lists without repeats |
| App.SetToSeq | app.py:54 | iterating a set lists each element exactly once, in some order |
| App.WorkLists | app.py:54-68 | the unassign, exempted and assign lists enumerate, without repeats, exactly the three sets of `Reconcile`, so each is as long as its set |
| App.EnumeratesSize | app.py:54-68 | a list that enumerates a set without repeats has the set's size |
| App.Actuator.UnassignLicense | app.py:80 | one unassign call is appended to the log and answered by the API's answer for it |
| App.Actuator.AssignLicense | app.py:100 | one assign call is appended to the log and answered by the API's answer for it |
| App.ErrorMessage | app.py:82-88 | the message of an outcome that is not a success: the exception's text when the call raised, otherwise the fixed refusal message of its action |
| App.FailureEntry | app.py:80-88 | one call contributes at most one failure entry; it contributes none exactly when the call succeeds, and the entry carries the call's e-mail and `ErrorMessage` |
| App.Calls | app.py:77-80 | the calls a loop makes: one per e-mail, in list order |
| App.ApplyAll | app.py:77-108 | after the loop the log has gained exactly one call per e-mail, in order, and the failure list equals `Failures` of those calls |
| App.FailuresAreFailedCalls | app.py:79-88 | every failure entry belongs to an e-mail of the list whose call did not succeed, and carries the fixed refusal message or the exception text |
| App.FailureRecorded | app.py:82-88 | every e-mail whose call is refused or raises has its failure entry |
| App.FailuresConcat | app.py:77-90 | a failure does not stop or reorder later work: the failures of a concatenation are the failures of the parts, concatenated |
| App.AllSucceededNoFailures | app.py:80-81 | if every call succeeds, no failure is recorded |
| App.OneRaisingCall | app.py:85-88 | one raising call among successes yields exactly one entry, with that e-mail and `str(e)` |
| App.FailuresPlusSuccesses | app.py:115-118 | failures plus successes equals the number of e-mails, so `total - len(failed)` counts the successful calls |
| App.RunWork | app.py:74-112 | the run's log is all unassign calls, then all assign calls; each loop's failures are `Failures` of its list |
| App.RunCallsOrder | app.py:74-112 | no unassignment follows an assignment, and the calls are exactly one per work item of either list |
| App.RunCallsOnce | app.py:77-108 | with repeat-free work lists no call of the run repeats, so each work item is attempted exactly once |
| App.SummaryCounts | app.py:115-118 | each success count equals the number of successful calls and lies between 0 and the total |
| App.Failures | app.py:77-108 | the failure list the loops build has no more entries than there are e-mails; its entries are stated by `FailuresAreFailedCalls`, `FailureRecorded`, `FailuresConcat` and `FailuresPlusSuccesses` |
| App.Summarize | app.py:115-118 | the totals are the list lengths; each success count is at most its total, and not negative when there are no more failures than items |
| App.FormatFailedOperations | app.py:121-124 | an empty list gives `• No failures`; otherwise the text starts with the first entry's line, and is exactly that line for one entry (line-by-line content in `FormatFailedOperationsLines`) |
| App.FailureLine | app.py:124 | `f"• {email}: {error}"`: starts with the bullet, holds the e-mail right after it and ends with the error, and has no newline when neither part has one |
| App.FailureLines | app.py:124 | one `• email: error` line per failure entry, in order |
| App.FormatFailedOperationsLines | app.py:121-124 | an empty list gives the single line `• No failures`; otherwise splitting the text at newlines gives back one line per entry, in order (for newline-free e-mails and messages) |
| App.FormatUserList | app.py:131-134 | an empty list gives `• None`; otherwise the text starts with the first user's bullet, and is exactly that bullet for one user (line-by-line content in `FormatUserListLines`) |
| App.FormatUserListLines | app.py:131-134 | an empty user list shows `• None`; otherwise the text splits back into one bullet line per user, in order (for newline-free e-mails) |
| App.JoinNonEmpty | app.py:131 | a join of non-empty lines is not empty, so the `or "• None"` fallback applies only to an empty list |
| App.Roster | app.py:49-50 | `set(get_day_schedule(...))`: an e-mail is in the roster exactly when it is in that day's list |
| App.ManageLicenses | app.py:24-118 | with no schedule or an empty schedule, it returns before any API call (log unchanged). Otherwise the three lists enumerate the `Reconcile` sets of today's and yesterday's rosters, the log gains exactly the run's calls (unassignments first), the totals are the sizes of the unassign and assign sets, and the failures and counts are those of the calls |
| DayUtils.WeekdayOf | day_utils.py:16-19 | the weekday of a proleptic Gregorian day number, in `weekday()` numbering: day 1 is a Monday and the days cycle every seven |
| DayUtils.FullName | day_utils.py:22-23 | `strftime('%A')`: the full English name, longer than three letters, whose first three letters are the `%a` short name |
| DayUtils.ShortName | day_utils.py:24-25 | `strftime('%a')`: three letters, starting with a capital |
| DayUtils.Previous | day_utils.py:19 | the previous weekday's number is one less, with Monday wrapping to Sunday |
| DayUtils.YesterdayIsPrevious | day_utils.py:16-19 | subtracting one day from a date gives the previous weekday |
| DayUtils.GetDayInfo | day_utils.py:3-26 | today's full and short names are those of today's weekday; yesterday's are those of the previous weekday |
| DayUtils.LookupName | day_utils.py:39-40 | a truthy day name is looked up as given; a missing or empty one is replaced by today's full weekday name; the looked-up name is never empty |
| DayUtils.FallbackKey | day_utils.py:43 | the abbreviated key is the first (at most) three characters of the upper-cased name |
| DayUtils.GetDaySchedule | day_utils.py:28-43 | the result is `[]` or the list under some key of the schedule; which key is stated by `FullNameTakesPrecedence`, `FallbackWhenFullNameAbsent` and `DefaultDayIsToday` |
| DayUtils.FullNameTakesPrecedence | day_utils.py:43 | when the full name is a key, its list is returned, also for a name that is its own abbreviated key |
| DayUtils.FallbackIgnoredWhenFullNamePresent | day_utils.py:43 | when the full name is a key and differs from its abbreviated key, changing the list under the abbreviated key does not change the result |
| DayUtils.FallbackWhenFullNameAbsent | day_utils.py:43 | when the full name is absent, the list under the abbreviated key is returned if present, else `[]` |
| DayUtils.DefaultDayIsToday | day_utils.py:39-40 | a missing or empty day name looks up today's full weekday name |
| DayUtils.FallbackKeyIsNotShortName | day_utils.py:24-43 | a weekday's fallback key is its three-letter upper-case abbreviation; this differs from both the `%a` short name and the full name |
| DayUtils.ShortNameKeysNeverMatch | day_utils.py:43 | a schedule keyed only by `%a` short names yields `[]` for every full weekday name |
| Configuration.ParseExemptUsers | config.py:23 | every entry is non-empty, has no surrounding whitespace and contains no comma; an empty value gives `[]` |
| Configuration.EntriesAreStrippedFields | config.py:23 | each kept entry is non-empty, without surrounding whitespace, and every character of it occurs in some field |
| Configuration.ParseExemptUsersKeepsFields | config.py:23 | every field that is not blank contributes its stripped text |
| Configuration.ParseExemptUsersConcat | config.py:23 | the parser keeps left-to-right order: the entries of `a,b` are those of `a` followed by those of `b` |
| Configuration.ParseExemptUsersField | config.py:23 | a single comma-free field gives its stripped text, or nothing if that is empty |
| Configuration.DropEmpty | config.py:23 | the `if email.strip()` filter keeps exactly the non-empty strings |
| Configuration.DropEmptyConcat | config.py:23 | the filter commutes with concatenation |
| Configuration.StripAll | config.py:23 | each field is replaced by its stripped text, position by position |
| Configuration.StripAllConcat | config.py:23 | stripping field by field commutes with concatenation |
| Strings.Strip | config.py:23 | the stripped text is no longer than the input and neither starts nor ends with whitespace |
| Strings.StripIsTrim | config.py:23 | the stripped text is the piece of the input that starts where `lstrip()` stops, with only whitespace before and after it (`IsTrimmedPiece`) |
| Strings.StripEmptyIffBlank | config.py:23 | stripping leaves nothing exactly when the field is all whitespace |
| Strings.StripKeepsChars | config.py:23 | stripping introduces no character |
| Strings.Split | config.py:23 | `str.split(sep)` yields at least one field; `SplitFieldsAvoidSep` and `JoinSplit` pin it to the fields between separators |
| Strings.SplitFieldsAvoidSep | config.py:23 | no field of `split(',')` contains a comma |
| Strings.JoinSplit | config.py:23 | joining the fields of a split with the separator gives back the input |
| Strings.SplitConcat | config.py:23 | splitting `a + sep + b` gives the fields of `a` followed by those of `b` |
| Strings.Join | app.py:124 | joining no parts gives `""`, one part gives that part, and the text always starts with the first part; `JoinSplit` and `SplitJoin` relate it to `Split` |
| Strings.SplitJoin | app.py:124 | splitting a join of one or more separator-free lines gives back the lines |
| Strings.Upper | day_utils.py:43 | upper-casing keeps the length and maps each character by `UpperChar` |
| Strings.Prefix | day_utils.py:43 | the slice `[:n]` is the prefix of length min(n, length) |
| Configuration.LoadConfig | config.py:9-31 | `DB_HOST` defaults to `localhost`, the Telegram settings to `""`, `EXEMPT_USERS` to `[]`, and the plain `getenv` settings to `None` |
| Configuration.GetEnv | config.py:9-20 | `os.getenv(key)`: the variable's value when it is set, `None` exactly when it is not |
| Configuration.GetEnvOr | config.py:14-31 | `os.getenv(key, default)`: the variable's value when it is set, the default otherwise |
| Configuration.Truthy | config.py:51 | an optional string is truthy unless it is `None` or empty |
| Configuration.IsSet | config.py:51 | `getattr(cls, var)` is truthy: `DB_HOST` when non-empty and `EXEMPT_USERS` when the list has an entry (its own `ensures`); the Telegram strings when non-empty and the optional Zoom, database and default-user settings by `Truthy` (by definition); for loaded values see `LoadedIsSet` |
| Configuration.TruthyGetEnv | config.py:9-20 | a `getenv` value without default is truthy exactly when the variable is set to a non-empty value |
| Configuration.LoadedDbHostIsSet | config.py:14-51 | a loaded `DB_HOST` is missing only when the variable is set to the empty string |
| Configuration.LoadedExemptUsersIsSet | config.py:23-51 | a loaded `EXEMPT_USERS` is present exactly when the parsed list has an entry |
| Configuration.LoadedIsSet | config.py:9-51 | every other loaded setting is present exactly when its variable is set to a non-empty value |
| Configuration.LoadedZoomIsSet | config.py:9-51 | the three Zoom credentials are present exactly when their variables are set and non-empty |
| Configuration.LoadedDbIsSet | config.py:15-51 | the database user, password, name and the default user e-mail are present exactly when their variables are set and non-empty |
| Configuration.LoadedTelegramIsSet | config.py:30-51 | the Telegram token and chat id are present exactly when their variables are set and non-empty |
| Configuration.Rank | config.py:37-49 | each setting's position in `required_vars` |
| Configuration.FilterUnset | config.py:51 | `missing_vars` holds exactly the falsy settings of the list it filters |
| Configuration.Missing | config.py:51 | every setting is required, so the missing settings are exactly those that are not set |
| Configuration.FilterUnsetKeepsOrder | config.py:51 | the comprehension keeps the relative order of what it keeps |
| Configuration.RankOfRequired | config.py:37-49 | `required_vars` lists each setting once, at its rank |
| Configuration.MissingInRequiredOrder | config.py:51-53 | the missing settings are listed in `required_vars` order, without repeats |
| Configuration.MissingNames | config.py:53 | the message names are the attribute names of the missing settings, in order |
| Configuration.ValidateConfig | config.py:34-53 | passes exactly when every required setting is truthy; otherwise raises with `Missing required configuration: ` followed by the missing names joined by `, ` |
| Configuration.EmptyExemptUsersRaises | config.py:48-53 | an empty exempt list makes validation raise and is named in the message |
| Configuration.UnsetExemptUsersRaises | config.py:23-53 | an environment without `EXEMPT_USERS` fails validation |
| Configuration.UnsetDbHostIsNotMissing | config.py:14-51 | because of its default, an unset `DB_HOST` is never reported missing |
| GetSchedule.GroupRows | getschedule.py:53-61 | zero rows give `None`; otherwise the dictionary built by appending row by row equals the reference grouping (keys exactly the distinct day names, each list the e-mails of that day in row order) |
| GetSchedule.AddRow | getschedule.py:59 | `schedule[day_name].append(user_email)` on a `defaultdict(list)`: the keys gain the row's day, every other list is unchanged, and the day's list is the old one (or `[]`) with the e-mail appended |
| GetSchedule.GroupedStep | getschedule.py:57-59 | adding a row appends its e-mail to its day's list and changes no other list |
| GetSchedule.EmailsOnAbsentDay | getschedule.py:59 | a day that no row names has no e-mails |
| GetSchedule.EmailsOnMembership | getschedule.py:57-59 | an e-mail is listed under a day exactly when some row pairs them |
| GetSchedule.GroupedTotal | getschedule.py:57-59 | the lists hold as many entries in total as there are rows |
| GetSchedule.GroupedListsNonEmpty | getschedule.py:53-61 | every list is non-empty, and a non-empty row set gives a non-empty dictionary |
| GetSchedule.DistinctDays | getschedule.py:57-59 | each distinct day name of the rows, once; its order is stated by `DistinctDaysInOrder` |
| GetSchedule.FirstRow | getschedule.py:57-59 | the index of the first row on a day: that row is on the day and no earlier one is (`|rows|` when none is) |
| GetSchedule.FirstRowPrefix | getschedule.py:57-59 | rows appended later do not move the first row of a day that already occurred |
| GetSchedule.DistinctDaysInOrder | getschedule.py:57-59 | the distinct day names are listed in the order of their first rows, the order in which the loop first adds each key |

## Left out

- Sending the Telegram notification (`send_telegram_message`) is network I/O. The HTML summary text, with its `datetime.now()` date and time, is also left out. The model keeps only the counts and the failure and user lists the summary embeds.
- All `print` output is left out.
- The MySQL connection, query and error handling of `get_email_schedule` are database I/O. `print_schedule` and todays_schedule.py are console output. The query's rows are an input of `GroupRows`.
- `load_dotenv`, `os.getenv` and the clock are not read. The environment is an input map, and today is an input day number.
- Names come from `strftime('%A')` and `'%a'`, modelled in the C locale.
- assign.py and unassign.py are not part of this model. Their HTTP and OAuth work is replaced by the `Actuator`'s answer function.
- The answer function is fixed for a run. It covers every sequence of answers because no run repeats a call.
- Each `print` that numbers the work items in the apply loops is console output and is not modelled.
- The rate-limit delay in the apply loops is commented out in the source and is not modelled.
- The constant URLs of `Config` and the module-level `Config.validate_config()` call at import are not modelled. `ValidateConfig(LoadConfig(env))` is what that call computes.
- `format_failed_operations` takes an `operation_type` argument that its body never uses. The model drops it.
- The expression `'exempted_users' in locals()` on app.py:134 is always true at that point. The model formats the exempted list directly.
- The apply loops catch only `Exception` (app.py:85 and app.py:105). A `KeyboardInterrupt`, `SystemExit` or other `BaseException` raised by the license API ends the run; `Outcome` has no such case, so the model assumes every call returns or raises an `Exception`.
- A Dafny `map` has no key order, so `GroupRows` does not state the insertion order of the dictionary's keys. `DistinctDaysInOrder` states the first-appearance order that Python's `dict` keeps; only `print_schedule`, which is left out, reads it.
- The order of Python set iteration is not modelled. `SetToSeq` may pick any order, and the contracts hold for all of them.
- App.WorkLists: the source computes `yesterday_emails - today_emails` twice, once per comprehension. The model filters one enumeration of that set, so both lists follow the same order.
- Strings.Upper: only ASCII letters are upper-cased. Non-ASCII characters whose upper case differs are kept as they are. This matters only for day names outside English.
- DayUtils.GetDaySchedule: its own `ensures` says only that the result is `[]` or some key's list. Which key is stated by `FullNameTakesPrecedence`, `FallbackWhenFullNameAbsent`, `DefaultDayIsToday` and `ShortNameKeysNeverMatch`.
- App.Failures: its own `ensures` only bounds its length. What the entries are is stated by `FailuresAreFailedCalls`, `FailureRecorded`, `FailuresConcat` and `FailuresPlusSuccesses`.
- Strings.Split: its own `ensures` only guarantees at least one field. Its meaning is stated by `SplitFieldsAvoidSep`, `JoinSplit`, `SplitConcat` and `SplitJoin`.
- Configuration.LoadConfig: its `ensures` covers every unset case and the value of a set `DB_HOST`. The values of the other settings, when set, follow from its definition only.
- Behaviour as coded:
  - `get_day_schedule` does fall back to the upper-cased three-letter key.
  - An empty or unset `EXEMPT_USERS` makes `validate_config` raise, because the empty list is falsy.
  - No exam-period roster override exists in the code, so none is modelled.
