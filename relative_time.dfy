/**
 * The relative-time label of a card ("Updated 3 months ago"): `timeAgo`,
 * nested inside `displayRepos` in script.js. The source floors each
 * quotient in turn (ms -> s -> min -> h -> day, then month = day / 30 and
 * year = day / 365); Dafny's `/` with a positive divisor is that floor.
 * Timestamps arrive as integer milliseconds; `None` is a missing or empty
 * `pushed_at`.
 */
module RelativeTime {
  import opened Wrappers
  import Decimal

  datatype Unit = Second | Minute | Hour | Day | Month | Year

  /** Position of a unit from the smallest (0) to the largest (5). */
  function Rank(u: Unit): nat {
    match u
    case Second => 0
    case Minute => 1
    case Hour => 2
    case Day => 3
    case Month => 4
    case Year => 5
  }

  function UnitName(u: Unit): (r: string)
    ensures |r| >= 1 && r[|r| - 1] != 's'
  {
    match u
    case Second => "second"
    case Minute => "minute"
    case Hour => "hour"
    case Day => "day"
    case Month => "month"
    case Year => "year"
  }

  /** Length of one unit in milliseconds: a month is 30 days, a year 365. */
  function UnitMs(u: Unit): (ms: int)
    ensures ms > 0
  {
    match u
    case Second => 1000
    case Minute => 1000 * 60
    case Hour => 1000 * 60 * 60
    case Day => 1000 * 60 * 60 * 24
    case Month => 1000 * 60 * 60 * 24 * 30
    case Year => 1000 * 60 * 60 * 24 * 365
  }

  /** How many whole units (floored) fit in `diff` milliseconds. */
  function Count(diff: int, u: Unit): int {
    diff / UnitMs(u)
  }

  datatype Elapsed = Elapsed(count: int, unit: Unit)

  /** Each cascaded quotient of `Bucket` is the count of whole units. */
  lemma CascadeCounts(diff: int)
    ensures diff / 1000 == Count(diff, Second)
    ensures diff / 1000 / 60 == Count(diff, Minute)
    ensures diff / 1000 / 60 / 60 == Count(diff, Hour)
    ensures diff / 1000 / 60 / 60 / 24 == Count(diff, Day)
    ensures diff / 1000 / 60 / 60 / 24 / 30 == Count(diff, Month)
    ensures diff / 1000 / 60 / 60 / 24 / 365 == Count(diff, Year)
  {
  }

  /**
   * The bucketing of `timeAgo`, by cascaded floor division. It picks the
   * largest unit of which at least one whole unit has elapsed and reports
   * the floored count of that unit; when not even one minute has elapsed
   * it reports seconds.
   */
  function Bucket(diff: int): (e: Elapsed)
    ensures e.count == Count(diff, e.unit)
    ensures e.unit != Second ==> e.count > 0
    ensures forall v :: Rank(e.unit) < Rank(v) ==> Count(diff, v) <= 0
  {
    CascadeCounts(diff);
    var sec := diff / 1000;
    var min := sec / 60;
    var hr := min / 60;
    var day := hr / 24;
    var month := day / 30;
    var year := day / 365;
    if year > 0 then Elapsed(year, Year)
    else if month > 0 then Elapsed(month, Month)
    else if day > 0 then Elapsed(day, Day)
    else if hr > 0 then Elapsed(hr, Hour)
    else if min > 0 then Elapsed(min, Minute)
    else Elapsed(sec, Second)
  }

  /** For a time in the past the count stays below the next unit up. */
  lemma BucketBoundsForPast(diff: int)
    requires diff >= 0
    ensures Bucket(diff).count >= 0
    ensures Bucket(diff).unit == Second ==> Bucket(diff).count < 60
    ensures Bucket(diff).unit == Minute ==> Bucket(diff).count < 60
    ensures Bucket(diff).unit == Hour ==> Bucket(diff).count < 24
    ensures Bucket(diff).unit == Day ==> Bucket(diff).count < 30
    ensures Bucket(diff).unit == Month ==> Bucket(diff).count <= 12
  {
  }

  /** A timestamp in the future is reported as a negative number of seconds. */
  lemma FutureIsNegativeSeconds(diff: int)
    requires diff < 0
    ensures Bucket(diff) == Elapsed(diff / 1000, Second) && Bucket(diff).count < 0
  {
  }

  /** Index of the first space of `s`, or `|s|` when there is none. */
  function FirstSpace(s: string): (k: nat)
    ensures k <= |s|
    ensures forall i :: 0 <= i < k ==> s[i] != ' '
    ensures k < |s| ==> s[k] == ' '
  {
    if s == [] || s[0] == ' ' then 0 else 1 + FirstSpace(s[1..])
  }

  function UnitFromName(name: string): Option<Unit> {
    if name == "second" then Some(Second)
    else if name == "minute" then Some(Minute)
    else if name == "hour" then Some(Hour)
    else if name == "day" then Some(Day)
    else if name == "month" then Some(Month)
    else if name == "year" then Some(Year)
    else None
  }

  /** A unit name, with or without a plural `s`. */
  function ParseUnitWord(word: string): Option<Unit> {
    if |word| > 0 && word[|word| - 1] == 's' then UnitFromName(word[..|word| - 1]) else UnitFromName(word)
  }

  /**
   * Reads a label back: a canonical integer (no leading zero, no "-0")
   * before the first space, then a unit name with or without a plural `s`,
   * then " ago".
   */
  function ParseLabel(s: string): Option<Elapsed> {
    var k := FirstSpace(s);
    if k + 5 > |s| || s[|s| - 4..] != " ago" || !Decimal.IsCanonical(s[..k]) then None
    else
      match ParseUnitWord(s[k + 1..|s| - 4])
      case None => None
      case Some(u) => Some(Elapsed(Decimal.ParseInt(s[..k]), u))
  }

  lemma UnitWordParses(u: Unit, plural: string)
    requires plural == "" || plural == "s"
    ensures ParseUnitWord(UnitName(u) + plural) == Some(u)
  {
    var n := UnitName(u);
    var word := n + plural;
    if plural == "s" {
      assert word[..|word| - 1] == n;
    } else {
      assert word == n;
    }
  }

  lemma {:induction false} FirstSpaceAfter(d: string, rest: string)
    requires forall i :: 0 <= i < |d| ==> d[i] != ' '
    requires |rest| > 0 && rest[0] == ' '
    ensures FirstSpace(d + rest) == |d|
  {
    if d != [] {
      assert (d + rest)[1..] == d[1..] + rest;
      FirstSpaceAfter(d[1..], rest);
    } else {
      assert d + rest == rest;
    }
  }

  /** A canonical number, a space, a word and " ago" parse as that number and word. */
  lemma ParseLabelOf(d: string, w: string)
    requires Decimal.IsCanonical(d)
    ensures var s := d + " " + w + " ago";
      && FirstSpace(s) == |d| && s[..|d|] == d
      && ParseLabel(s) == match ParseUnitWord(w)
                          case None => None
                          case Some(u) => Some(Elapsed(Decimal.ParseInt(d), u))
  {
    var tail := " " + w + " ago";
    var s := d + " " + w + " ago";
    assert s == d + tail;
    FirstSpaceAfter(d, tail);
    assert s[..|d|] == d;
    assert s[|s| - 4..] == " ago";
    assert s[|d| + 1..|s| - 4] == w;
  }

  lemma LabelParsesBack(count: int, u: Unit, plural: string)
    requires plural == "" || plural == "s"
    ensures var s := Decimal.IntToString(count) + " " + UnitName(u) + plural + " ago";
      ParseLabel(s) == Some(Elapsed(count, u)) && s[..FirstSpace(s)] == Decimal.IntToString(count)
  {
    var d, w := Decimal.IntToString(count), UnitName(u) + plural;
    assert d + " " + UnitName(u) + plural + " ago" == d + " " + w + " ago";
    ParseLabelOf(d, w);
    UnitWordParses(u, plural);
    Decimal.IntToStringRoundTrip(count);
  }

  /** "N unit[s] ago", with the `s` only when the count exceeds one. */
  function Label(e: Elapsed): (r: string)
    ensures |r| >= 5
    ensures r[|r| - 5..] == "s ago" <==> e.count > 1
  {
    var name := UnitName(e.unit);
    var plural := if e.count > 1 then "s" else "";
    var r := Decimal.IntToString(e.count) + " " + name + plural + " ago";
    assert r[|r| - 5..] == [r[|r| - 5]] + " ago";
    assert e.count <= 1 ==> r[|r| - 5] == name[|name| - 1];
    r
  }

  /** `timeAgo(iso)` evaluated at time `now` (both in milliseconds). */
  function TimeAgo(pushed: Option<int>, now: int): (r: string)
    ensures r == "" <==> pushed == None
    ensures pushed != None ==> |r| >= 5 && (r[|r| - 5..] == "s ago" <==> Bucket(now - pushed.value).count > 1)
  {
    match pushed
    case None => ""
    case Some(t) => Label(Bucket(now - t))
  }

  /**
   * The text of `timeAgo` says exactly what `Bucket` computed: reading its
   * number and unit back gives the count and the unit of the bucket, and
   * the number is written as `${n}` writes the count.
   */
  lemma TimeAgoReadsBack(pushed: Option<int>, now: int)
    requires pushed != None
    ensures ParseLabel(TimeAgo(pushed, now)) == Some(Bucket(now - pushed.value))
    ensures var t := TimeAgo(pushed, now);
      t[..FirstSpace(t)] == Decimal.IntToString(Bucket(now - pushed.value).count)
  {
    var e := Bucket(now - pushed.value);
    LabelParsesBack(e.count, e.unit, if e.count > 1 then "s" else "");
  }

  const MsPerDay := 1000 * 60 * 60 * 24

  /** Ninety days ago reads "3 months ago". */
  lemma NinetyDaysAgo(now: int)
    ensures TimeAgo(Some(now - 90 * MsPerDay), now) == "3 months ago"
  {
    var diff := now - (now - 90 * MsPerDay);
    assert diff == 7776000000;
    assert 7776000000 / 1000 / 60 / 60 / 24 == 90;
    assert Bucket(diff) == Elapsed(3, Month);
    assert Decimal.IntToString(3) == "3";
    assert Label(Elapsed(3, Month)) == "3" + " " + "month" + "s" + " ago";
  }

  /** A count of one keeps the singular: exactly one day ago reads "1 day ago". */
  lemma OneDayAgo(now: int)
    ensures TimeAgo(Some(now - MsPerDay), now) == "1 day ago"
  {
    assert MsPerDay / 1000 / 60 / 60 / 24 == 1;
    assert Bucket(MsPerDay) == Elapsed(1, Day);
    assert Decimal.IntToString(1) == "1";
    assert Label(Elapsed(1, Day)) == "1" + " " + "day" + "" + " ago";
  }

  /** A count of zero keeps the singular too: "0 second ago". */
  lemma JustNow(now: int)
    ensures TimeAgo(Some(now - 999), now) == "0 second ago"
  {
    assert 999 / 1000 == 0;
    assert Bucket(999) == Elapsed(0, Second);
    assert Decimal.IntToString(0) == "0";
    assert Label(Elapsed(0, Second)) == "0" + " " + "second" + "" + " ago";
  }
}
