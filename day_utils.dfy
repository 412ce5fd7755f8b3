/** day_utils.py: the names of today and yesterday, and the lookup of one
    day's e-mail list in the schedule with its fallback key. The clock is not
    read: today is given as a proleptic Gregorian day number, Python's
    `date.toordinal()` (day 1 is Monday 1 January of year 1). */
module DayUtils {
  import opened Wrappers
  import opened Strings

  datatype Weekday = Monday | Tuesday | Wednesday | Thursday | Friday | Saturday | Sunday

  /** `date.weekday()`: Monday is 0, Sunday is 6. */
  function WeekdayIndex(d: Weekday): (k: nat)
    ensures k < 7
  {
    match d
    case Monday => 0
    case Tuesday => 1
    case Wednesday => 2
    case Thursday => 3
    case Friday => 4
    case Saturday => 5
    case Sunday => 6
  }

  /** The weekday with a given `date.weekday()` number. */
  function WeekdayAt(k: nat): (d: Weekday)
    requires k < 7
    ensures WeekdayIndex(d) == k
  {
    if k == 0 then Monday
    else if k == 1 then Tuesday
    else if k == 2 then Wednesday
    else if k == 3 then Thursday
    else if k == 4 then Friday
    else if k == 5 then Saturday
    else Sunday
  }

  /** The weekday of a day number: Python's `(ordinal + 6) % 7`, whose `%` with a
      positive divisor agrees with Dafny's. */
  function WeekdayOf(ordinal: int): (d: Weekday)
    ensures WeekdayIndex(d) == (ordinal + 6) % 7
  {
    WeekdayAt((ordinal + 6) % 7)
  }

  /** The weekday before `d`, Monday wrapping to Sunday. */
  function Previous(d: Weekday): (p: Weekday)
    ensures WeekdayIndex(p) == if d == Monday then 6 else WeekdayIndex(d) - 1
  {
    match d
    case Monday => Sunday
    case Tuesday => Monday
    case Wednesday => Tuesday
    case Thursday => Wednesday
    case Friday => Thursday
    case Saturday => Friday
    case Sunday => Saturday
  }

  /** `strftime('%A')` in the C locale. */
  function FullName(d: Weekday): (name: string)
    ensures |name| > 3 && name[..3] == ShortName(d)
  {
    match d
    case Monday => "Monday"
    case Tuesday => "Tuesday"
    case Wednesday => "Wednesday"
    case Thursday => "Thursday"
    case Friday => "Friday"
    case Saturday => "Saturday"
    case Sunday => "Sunday"
  }

  /** `strftime('%a')` in the C locale. */
  function ShortName(d: Weekday): (short: string)
    ensures |short| == 3 && 'A' <= short[0] <= 'Z'
  {
    match d
    case Monday => "Mon"
    case Tuesday => "Tue"
    case Wednesday => "Wed"
    case Thursday => "Thu"
    case Friday => "Fri"
    case Saturday => "Sat"
    case Sunday => "Sun"
  }

  /** The dictionary returned by `get_day_info`. */
  datatype DayInfo = DayInfo(today: string, yesterday: string, todayShort: string, yesterdayShort: string)

  /** `get_day_info`: yesterday is the day number before today. Its names are
      those of the weekday before today's weekday, so Monday's yesterday is
      Sunday. */
  function GetDayInfo(todayOrdinal: int): (info: DayInfo)
    ensures info.today == FullName(WeekdayOf(todayOrdinal))
    ensures info.yesterday == FullName(Previous(WeekdayOf(todayOrdinal)))
    ensures info.todayShort == ShortName(WeekdayOf(todayOrdinal))
    ensures info.yesterdayShort == ShortName(Previous(WeekdayOf(todayOrdinal)))
  {
    var yesterdayOrdinal := todayOrdinal - 1;
    YesterdayIsPrevious(todayOrdinal);
    DayInfo(
      FullName(WeekdayOf(todayOrdinal)), FullName(WeekdayOf(yesterdayOrdinal)),
      ShortName(WeekdayOf(todayOrdinal)), ShortName(WeekdayOf(yesterdayOrdinal)))
  }

  /** Subtracting one day steps the weekday back by one, wrapping at Monday. */
  lemma YesterdayIsPrevious(ordinal: int)
    ensures WeekdayOf(ordinal - 1) == Previous(WeekdayOf(ordinal))
  {
  }

  /** The abbreviated key tried when the full name is absent:
      `day_name.upper()[:3]`. */
  function FallbackKey(dayName: string): (key: string)
    ensures |key| == if |dayName| < 3 then |dayName| else 3
    ensures forall k :: 0 <= k < |key| ==> key[k] == UpperChar(dayName[k])
  {
    Prefix(Upper(dayName), 3)
  }

  /** Python truthiness of the `day_name` argument: neither `None` nor empty. */
  predicate Given(dayName: Option<string>) {
    dayName.Some? && dayName.value != ""
  }

  /** The key `get_day_schedule` looks up first: the given day name, or today's
      full weekday name when none is given. */
  function LookupName(dayName: Option<string>, todayOrdinal: int): (name: string)
    ensures Given(dayName) ==> name == dayName.value
    ensures !Given(dayName) ==> name == FullName(WeekdayOf(todayOrdinal))
    ensures name != ""
  {
    if Given(dayName) then dayName.value else GetDayInfo(todayOrdinal).today
  }

  /** `get_day_schedule(schedule, day_name)`: the nested `dict.get` with the full
      name first, the abbreviated key second and `[]` last. */
  function GetDaySchedule(schedule: map<string, seq<string>>, dayName: Option<string>, todayOrdinal: int): (emails: seq<string>)
    ensures emails == [] || exists key :: key in schedule && schedule[key] == emails
  {
    var name := LookupName(dayName, todayOrdinal);
    if name in schedule then schedule[name]
    else if FallbackKey(name) in schedule then schedule[FallbackKey(name)]
    else []
  }

  /** When the full name is a key its list is returned, even when the name is
      its own abbreviated key. */
  lemma FullNameTakesPrecedence(schedule: map<string, seq<string>>, dayName: Option<string>, todayOrdinal: int)
    requires LookupName(dayName, todayOrdinal) in schedule
    ensures GetDaySchedule(schedule, dayName, todayOrdinal) == schedule[LookupName(dayName, todayOrdinal)]
  {
  }

  /** When the full name is a key, the list under the abbreviated key does not
      matter: changing it leaves the result as it was. */
  lemma FallbackIgnoredWhenFullNamePresent(schedule: map<string, seq<string>>, dayName: Option<string>, todayOrdinal: int, other: seq<string>)
    requires LookupName(dayName, todayOrdinal) in schedule
    requires FallbackKey(LookupName(dayName, todayOrdinal)) != LookupName(dayName, todayOrdinal)
    ensures GetDaySchedule(schedule[FallbackKey(LookupName(dayName, todayOrdinal)) := other], dayName, todayOrdinal)
         == schedule[LookupName(dayName, todayOrdinal)]
  {
  }

  /** Without the full name, the list under the abbreviated key is returned when
      that key is present, and `[]` otherwise. */
  lemma FallbackWhenFullNameAbsent(schedule: map<string, seq<string>>, dayName: Option<string>, todayOrdinal: int)
    requires LookupName(dayName, todayOrdinal) !in schedule
    ensures var key := FallbackKey(LookupName(dayName, todayOrdinal));
      GetDaySchedule(schedule, dayName, todayOrdinal) == if key in schedule then schedule[key] else []
  {
  }

  /** Without a day name the lookup is the one for today's full weekday name. */
  lemma DefaultDayIsToday(schedule: map<string, seq<string>>, dayName: Option<string>, todayOrdinal: int)
    requires !Given(dayName)
    ensures GetDaySchedule(schedule, dayName, todayOrdinal)
         == GetDaySchedule(schedule, Some(FullName(WeekdayOf(todayOrdinal))), todayOrdinal)
  {
  }

  /** The fallback key of a weekday name is its three-letter upper-case
      abbreviation, which differs from the title-case `strftime('%a')` name:
      a schedule keyed "Mon" is not found under either key. */
  lemma FallbackKeyIsNotShortName(d: Weekday)
    ensures FallbackKey(FullName(d)) != ShortName(d)
    ensures FallbackKey(FullName(d)) != FullName(d)
    ensures |FallbackKey(FullName(d))| == 3
    ensures FallbackKey(FullName(d)) == Upper(ShortName(d))
  {
  }

  /** A schedule whose keys are only `strftime('%a')` names yields `[]` for
      every full weekday name, since neither the full nor the fallback key
      matches. */
  lemma ShortNameKeysNeverMatch(schedule: map<string, seq<string>>, d: Weekday, todayOrdinal: int)
    requires forall key :: key in schedule ==> exists w :: key == ShortName(w)
    ensures GetDaySchedule(schedule, Some(FullName(d)), todayOrdinal) == []
  {
    var name := FullName(d);
    var key := FallbackKey(name);
    NameShapes(d);
    assert 'A' <= key[1] <= 'Z';
    forall w | true
      ensures name != ShortName(w) && key != ShortName(w)
    {
      NameShapes(w);
    }
  }

  /** Full names are longer than three characters and abbreviations are three
      long; both have a lower-case second letter. */
  lemma NameShapes(d: Weekday)
    ensures |FullName(d)| > 3 && 'a' <= FullName(d)[1] <= 'z'
    ensures |ShortName(d)| == 3 && 'a' <= ShortName(d)[1] <= 'z'
  {
  }
}
