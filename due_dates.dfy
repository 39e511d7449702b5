/**
 * Turning a due-date phrase into a day. The dashboard has four variants:
 * the resolver of test_app.py, the voice-command path of app.py (weekday
 * names only by exact equality), and the date handling after a document
 * suggestion or a brain-dump suggestion has been scraped from a reply.
 */
module DueDates {
  import opened Wrappers
  import opened Text
  import opened Lists
  import opened Calendar

  /** The weekday names in date.weekday() order, Monday first. */
  const WeekdayNames: seq<string> :=
    ["monday", "tuesday", "wednesday", "thursday", "friday", "saturday", "sunday"]

  /** The first weekday name, Monday first, that occurs in the lower-cased phrase. */
  function FirstWeekdayMention(lowered: string): (r: Option<nat>)
    ensures r.Some? ==> r.value < 7 && Contains(lowered, WeekdayNames[r.value])
    ensures forall k :: 0 <= k < 7 && (r.None? || k < r.value) ==> !Contains(lowered, WeekdayNames[k])
  {
    FirstIndex(WeekdayNames, name => Contains(lowered, name))
  }

  /** parse_due_date_from_string(phrase) on the given today. */
  function ResolveDuePhrase(phrase: string, today: Day): Option<Day>
  {
    var lowered := Lower(phrase);
    if phrase == "" || lowered == "n/a" || lowered == "not specified" then None
    else if Contains(lowered, "today") then Some(today)
    else if Contains(lowered, "tomorrow") then Some(today + 1)
    else if Contains(lowered, "next week") then Some(today + 7)
    else if ParseIsoDate(phrase).Some? then ParseIsoDate(phrase)
    else match FirstWeekdayMention(lowered)
      case Some(k) => Some(NextWeekday(today, k))
      case None => None
  }

  /** The due date of a voice ADD_TASK from its DUE_DATE_STR value. */
  function ResolveVoiceDue(dueStr: string, today: Day): Option<Day>
  {
    var lowered := Lower(dueStr);
    if dueStr == "" || lowered == "n/a" then None
    else if Contains(lowered, "today") then Some(today)
    else if Contains(lowered, "tomorrow") then Some(today + 1)
    else if Contains(lowered, "next week") then Some(today + 7)
    else if ParseIsoDate(dueStr).Some? then ParseIsoDate(dueStr)
    else if lowered in WeekdayNames then Some(NextWeekday(today, IndexOfName(lowered)))
    else None
  }

  /** days.index(name) */
  function IndexOfName(name: string): (k: int)
    requires name in WeekdayNames
    ensures 0 <= k < 7 && WeekdayNames[k] == name
  {
    match FirstIndex(WeekdayNames, n => n == name)
    case Some(k) => k
    case None => assert false; 0
  }

  /** The due date of a suggested document task from its scraped due text. */
  function DocumentDue(dueStr: string): Option<Day>
  {
    if Lower(dueStr) != "not specified" && dueStr != "" then ParseIsoDate(Strip(dueStr)) else None
  }

  /** re.match(r"\d{4}-\d{2}-\d{2}", s): s begins with the shape of a date. */
  predicate StartsLikeIsoDate(s: string)
  {
    |s| >= 10 && s[4] == '-' && s[7] == '-'
    && AllDigits(s[..4]) && AllDigits(s[5..7]) && AllDigits(s[8..10])
  }

  /** The due date of a suggested brain-dump task from its scraped due text. */
  function BrainDumpDue(dueStr: string, today: Day): Option<Day>
  {
    if dueStr == "" then None
    else
      var trimmed := Strip(dueStr);
      if Lower(trimmed) == "today" then Some(today)
      else if Lower(trimmed) == "tomorrow" then Some(today + 1)
      else if StartsLikeIsoDate(trimmed) then ParseIsoDate(trimmed)
      else None
  }
}

/** What the due-date rules promise, proved about the functions above. */
module DueDateFacts {
  import opened Wrappers
  import opened Text
  import opened Calendar
  import opened DueDates

  /** A phrase that is exactly one weekday name mentions no earlier weekday. */
  lemma WeekdayNameFirstMention(k: nat)
    requires k < 7
    ensures FirstWeekdayMention(WeekdayNames[k]) == Some(k)
  {
    var name := WeekdayNames[k];
    forall j | 0 <= j < k
      ensures !Contains(name, WeekdayNames[j])
    {
      var c := if j == 0 then 'm' else if j == 2 then 'w' else if j == 4 then 'f'
        else if j == 1 then (if k == 3 || k == 5 then 'e' else 't')
        else if j == 3 then (if k == 5 then 'h' else 't')
        else 't';
      ContainsNeedsChar(name, WeekdayNames[j], c);
    }
    assert OccursAt(name, name, 0);
  }

  /** The placeholders "n/a" and "not specified" hold no relative keyword. */
  lemma PlaceholdersNameNoRelativeDay()
    ensures !Contains("n/a", "today") && !Contains("n/a", "tomorrow") && !Contains("n/a", "next week")
    ensures !Contains("not specified", "today") && !Contains("not specified", "tomorrow")
    ensures !Contains("not specified", "next week")
  {
    ContainsNeedsChar("n/a", "today", 't');
    ContainsNeedsChar("n/a", "tomorrow", 't');
    ContainsNeedsChar("n/a", "next week", 'x');
    ContainsNeedsChar("not specified", "today", 'y');
    ContainsNeedsChar("not specified", "tomorrow", 'm');
    ContainsNeedsChar("not specified", "next week", 'x');
  }

  /** Every weekday name ends in "day", so text without a 'y' names no weekday. */
  lemma NoWeekdayWithoutY(s: string)
    requires 'y' !in s
    ensures forall k :: 0 <= k < 7 ==> !Contains(s, WeekdayNames[k])
  {
    forall k | 0 <= k < 7
      ensures !Contains(s, WeekdayNames[k])
    {
      assert WeekdayNames[k][|WeekdayNames[k]| - 1] == 'y';
      ContainsNeedsChar(s, WeekdayNames[k], 'y');
    }
  }

  /** "today" beats "tomorrow", which beats "next week", wherever they occur in the phrase. */
  lemma ResolveRelativeFirst(phrase: string, today: Day)
    ensures Contains(Lower(phrase), "today") ==> ResolveDuePhrase(phrase, today) == Some(today)
    ensures !Contains(Lower(phrase), "today") && Contains(Lower(phrase), "tomorrow")
            ==> ResolveDuePhrase(phrase, today) == Some(today + 1)
    ensures !Contains(Lower(phrase), "today") && !Contains(Lower(phrase), "tomorrow")
            && Contains(Lower(phrase), "next week")
            ==> ResolveDuePhrase(phrase, today) == Some(today + 7)
  {
    PlaceholdersNameNoRelativeDay();
  }

  /**
   * A phrase that reaches the weekday rule resolves to the next day, one to
   * seven days ahead and never today, on the first weekday it names in
   * Monday-first order.
   */
  lemma ResolveNamedWeekday(phrase: string, today: Day, k: nat)
    requires !Contains(Lower(phrase), "today") && !Contains(Lower(phrase), "tomorrow")
    requires !Contains(Lower(phrase), "next week") && ParseIsoDate(phrase).None?
    requires FirstWeekdayMention(Lower(phrase)) == Some(k)
    ensures ResolveDuePhrase(phrase, today).Some?
    ensures var d := ResolveDuePhrase(phrase, today).value;
            today < d <= today + 7 && Weekday(d) == k
            && forall e :: today < e < d ==> Weekday(e) != k
    ensures forall j :: 0 <= j < k ==> !Contains(Lower(phrase), WeekdayNames[j])
  {
    var lowered := Lower(phrase);
    NoWeekdayWithoutY("n/a");
    NoWeekdayWithoutY("not specified");
    assert lowered != "n/a" && lowered != "not specified";
    assert |lowered| >= |WeekdayNames[k]| > 0;
    assert ResolveDuePhrase(phrase, today) == Some(NextWeekday(today, k));
  }

  /** A phrase that names no relative day, no exact date and no weekday stays unresolved. */
  lemma ResolveNothingNamed(phrase: string, today: Day)
    requires !Contains(Lower(phrase), "today") && !Contains(Lower(phrase), "tomorrow")
    requires !Contains(Lower(phrase), "next week") && ParseIsoDate(phrase).None?
    requires forall k :: 0 <= k < 7 ==> !Contains(Lower(phrase), WeekdayNames[k])
    ensures ResolveDuePhrase(phrase, today) == None
  {
  }

  /** Apart from an exact date, every resolved day lies within the coming week. */
  lemma ResolveWithinWeek(phrase: string, today: Day)
    ensures ResolveDuePhrase(phrase, today).Some? ==>
              var d := ResolveDuePhrase(phrase, today).value;
              (today <= d <= today + 7) || ParseIsoDate(phrase) == Some(d)
  {
  }

  /** The voice path has no "not specified" rule, yet leaves that phrase unresolved too. */
  lemma VoiceNeverResolvesNotSpecified(dueStr: string, today: Day)
    ensures Lower(dueStr) == "not specified" ==> ResolveVoiceDue(dueStr, today) == None
  {
    if Lower(dueStr) == "not specified" {
      PlaceholdersNameNoRelativeDay();
      assert |dueStr| == 13;
      assert "not specified" !in WeekdayNames;
    }
  }

  /**
   * Whenever the voice path finds a due date, the test_app.py resolver finds
   * the same one: the voice path only gives up on more phrases.
   */
  lemma VoiceAgreesWithResolver(dueStr: string, today: Day)
    requires ResolveVoiceDue(dueStr, today).Some?
    ensures ResolveDuePhrase(dueStr, today) == ResolveVoiceDue(dueStr, today)
  {
    var lowered := Lower(dueStr);
    VoiceNeverResolvesNotSpecified(dueStr, today);
    if !Contains(lowered, "today") && !Contains(lowered, "tomorrow") && !Contains(lowered, "next week")
       && ParseIsoDate(dueStr).None?
    {
      var k := IndexOfName(lowered);
      WeekdayNameFirstMention(k);
      assert FirstWeekdayMention(lowered) == Some(k);
    }
  }

  /** The document path's guard is subsumed by the date parse of the stripped text. */
  lemma DocumentDueIsIsoDate(dueStr: string)
    ensures DocumentDue(dueStr) == ParseIsoDate(Strip(dueStr))
  {
    if Lower(dueStr) == "not specified" {
      assert Lower(dueStr)[0] == 'n' && Lower(dueStr)[12] == 'd';
      StripStripped(dueStr);
    }
  }

  /**
   * The brain-dump path matches "today" and "tomorrow" only as the whole
   * stripped text, and its date-shape check lets through exactly the text
   * the date parse accepts.
   */
  lemma BrainDumpDueCases(dueStr: string, today: Day)
    ensures BrainDumpDue(dueStr, today) ==
              var t := Strip(dueStr);
              if Lower(t) == "today" then Some(today)
              else if Lower(t) == "tomorrow" then Some(today + 1)
              else ParseIsoDate(t)
  {
    var t := Strip(dueStr);
    if dueStr == [] {
      assert t == [];
      assert Lower(t) == [];
    } else if ParseIsoDate(t).Some? {
      ParsedLooksLikeDate(t);
    }
  }

  /** Text the date parse accepts passes the date-shape check in front of it. */
  lemma ParsedLooksLikeDate(t: string)
    requires ParseIsoDate(t).Some?
    ensures StartsLikeIsoDate(t)
  {
    assert t[8..10] == t[8..];
  }

  /** test_app.py expects "today" to resolve to today, on every today. */
  lemma ResolveTodayExample(today: Day)
    ensures ResolveDuePhrase("today", today) == Some(today)
  {
    assert Lower("today") == "today";
    assert OccursAt("today", "today", 0);
    ResolveRelativeFirst("today", today);
  }

  /** test_app.py expects "tomorrow" to resolve to the next day. */
  lemma ResolveTomorrowExample(today: Day)
    ensures ResolveDuePhrase("tomorrow", today) == Some(today + 1)
  {
    assert Lower("tomorrow") == "tomorrow";
    ContainsNeedsChar("tomorrow", "today", 'd');
    assert OccursAt("tomorrow", "tomorrow", 0);
    ResolveRelativeFirst("tomorrow", today);
  }

  /** test_app.py expects "next week" to resolve to seven days ahead. */
  lemma ResolveNextWeekExample(today: Day)
    ensures ResolveDuePhrase("next week", today) == Some(today + 7)
  {
    assert Lower("next week") == "next week";
    ContainsNeedsChar("next week", "today", 'o');
    ContainsNeedsChar("next week", "tomorrow", 'o');
    assert OccursAt("next week", "next week", 0);
    ResolveRelativeFirst("next week", today);
  }

  /** Every relative keyword holds a 't', so text without one names no relative day. */
  lemma NoRelativeWithoutT(s: string)
    requires 't' !in s
    ensures !Contains(s, "today") && !Contains(s, "tomorrow") && !Contains(s, "next week")
  {
    ContainsNeedsChar(s, "today", 't');
    ContainsNeedsChar(s, "tomorrow", 't');
    ContainsNeedsChar(s, "next week", 't');
  }

  /** "2024-12-25" parses as Christmas Day 2024. */
  lemma ChristmasParses()
    ensures ParseIsoDate("2024-12-25") == Some(Ordinal(Civil(2024, 12, 25)))
  {
    var c := Civil(2024, 12, 25);
    assert FormatIso(c) == "2024-12-25";
    ParseFormatIso(c);
  }

  /** The `YYYY-MM-DD` text of a date is ten digits and dashes: no letter, no placeholder. */
  lemma IsoTextHasNoLetters(c: Civil)
    requires Valid(c)
    ensures var s := FormatIso(c);
            |s| == 10 && Lower(s) == s && 't' !in s && 'y' !in s
  {
    ReadPadded(c.year, 4);
    ReadPadded(c.month, 2);
    ReadPadded(c.day, 2);
    var s := FormatIso(c);
    forall i | 0 <= i < |s|
      ensures IsDigit(s[i]) || s[i] == '-'
    {
      if i < 4 {
        assert s[i] == ZeroPadded(c.year, 4)[i];
      } else if 5 <= i < 7 {
        assert s[i] == ZeroPadded(c.month, 2)[i - 5];
      } else if 8 <= i {
        assert s[i] == ZeroPadded(c.day, 2)[i - 8];
      }
    }
    assert Lower(s) == s;
  }

  /** The resolver reads the `YYYY-MM-DD` text of every valid date as that date, on every today. */
  lemma ResolveIsoDate(c: Civil, today: Day)
    requires Valid(c)
    ensures ResolveDuePhrase(FormatIso(c), today) == Some(Ordinal(c))
  {
    var s := FormatIso(c);
    IsoTextHasNoLetters(c);
    NoRelativeWithoutT(s);
    ParseFormatIso(c);
  }

  /** The voice path reads the `YYYY-MM-DD` text of every valid date as that date too. */
  lemma VoiceResolveIsoDate(c: Civil, today: Day)
    requires Valid(c)
    ensures ResolveVoiceDue(FormatIso(c), today) == Some(Ordinal(c))
  {
    var s := FormatIso(c);
    IsoTextHasNoLetters(c);
    NoRelativeWithoutT(s);
    ParseFormatIso(c);
  }

  /** test_app.py's expectation for an exact date: "2024-12-25" is 2024-12-25. */
  lemma ResolveExactDateExample(today: Day)
    ensures ResolveDuePhrase("2024-12-25", today) == Some(Ordinal(Civil(2024, 12, 25)))
  {
    assert Lower("2024-12-25") == "2024-12-25";
    NoRelativeWithoutT("2024-12-25");
    ChristmasParses();
  }

  /** test_app.py's expectations for the empty string and the placeholders. */
  lemma ResolvePlaceholderExamples(today: Day)
    ensures ResolveDuePhrase("", today) == None
    ensures ResolveDuePhrase("N/A", today) == None
    ensures ResolveDuePhrase("not specified", today) == None
    ensures ResolveDuePhrase("Not Specified", today) == None
  {
    assert Lower("N/A") == "n/a";
    assert Lower("Not Specified") == "not specified";
  }

  /** "some random string" names no relative day and no weekday. */
  lemma RandomStringMentions()
    ensures !Contains("some random string", "today") && !Contains("some random string", "tomorrow")
    ensures !Contains("some random string", "next week")
    ensures forall k :: 0 <= k < 7 ==> !Contains("some random string", WeekdayNames[k])
  {
    var s := "some random string";
    ContainsNeedsChar(s, "today", 'y');
    ContainsNeedsChar(s, "tomorrow", 'w');
    ContainsNeedsChar(s, "next week", 'x');
    NoWeekdayWithoutY(s);
  }

  /** test_app.py's expectation for a phrase that names nothing: "some random string". */
  lemma ResolveUnmatchedExample(today: Day)
    ensures ResolveDuePhrase("some random string", today) == None
  {
    assert Lower("some random string") == "some random string";
    RandomStringMentions();
  }

  /** The first weekday mention is pinned down by one name present and the earlier ones absent. */
  lemma FirstWeekdayMentionIs(lowered: string, k: nat)
    requires k < 7 && Contains(lowered, WeekdayNames[k])
    requires forall j :: 0 <= j < k ==> !Contains(lowered, WeekdayNames[j])
    ensures FirstWeekdayMention(lowered) == Some(k)
  {
  }

  /** "this friday" names no relative day. */
  lemma ThisFridayNoRelative()
    ensures !Contains("this friday", "today") && !Contains("this friday", "tomorrow")
    ensures !Contains("this friday", "next week")
  {
    ContainsNeedsChar("this friday", "today", 'o');
    ContainsNeedsChar("this friday", "tomorrow", 'o');
    ContainsNeedsChar("this friday", "next week", 'n');
  }

  /** "this friday" names Friday and no earlier weekday. */
  lemma ThisFridayWeekday()
    ensures FirstWeekdayMention("this friday") == Some(4)
  {
    var lowered := "this friday";
    ContainsNeedsChar(lowered, "monday", 'm');
    ContainsNeedsChar(lowered, "tuesday", 'u');
    ContainsNeedsChar(lowered, "wednesday", 'w');
    ContainsNeedsChar(lowered, "thursday", 'u');
    assert OccursAt(lowered, "friday", 5);
    FirstWeekdayMentionIs(lowered, 4);
  }

  /** test_app.py resolves "this Friday" to the next Friday, one to seven days ahead. */
  lemma ThisFridayExample(today: Day)
    ensures ResolveDuePhrase("this Friday", today) == Some(NextWeekday(today, 4))
  {
    assert Lower("this Friday") == "this friday";
    ThisFridayNoRelative();
    ThisFridayWeekday();
  }

  /** The voice path, which wants a bare weekday name, leaves "this Friday" unresolved. */
  lemma VoiceThisFridayExample(today: Day)
    ensures ResolveVoiceDue("this Friday", today) == None
  {
    assert Lower("this Friday") == "this friday";
    ThisFridayNoRelative();
    ThisFridayWeekday();
    assert "this friday" !in WeekdayNames;
  }

  /** A bare weekday name resolves the same way on both paths. */
  lemma BareFridayExample(today: Day)
    ensures ResolveVoiceDue("Friday", today) == Some(NextWeekday(today, 4))
    ensures ResolveDuePhrase("Friday", today) == Some(NextWeekday(today, 4))
  {
    var lowered := Lower("Friday");
    assert lowered == "friday" == WeekdayNames[4];
    ContainsNeedsChar(lowered, "today", 'o');
    ContainsNeedsChar(lowered, "tomorrow", 'o');
    ContainsNeedsChar(lowered, "next week", 'n');
    WeekdayNameFirstMention(4);
  }
}
