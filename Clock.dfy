/**
 * The clock widget: one sample of the command output
 * `date '+%H %M %S %p | %a, %d %b, %Y'; whoami` becomes the pieces the clock shows
 * (date line, hour, flashing separator, minutes, optional seconds and AM/PM,
 * optional greeting), under a fixed set of display options.
 */
module Clock {
  import opened Wrappers
  import opened Text

  // ---------------------------------------------------------------------------
  // Configuration

  /** The display options, fixed when the widget loads. */
  datatype Config = Config(
    usePadZero: bool,          // pad hours below ten with a zero (12-hour display only)
    flashTimeSeparator: bool,  // blink the ':' once a second
    displaySeconds: bool,      // show ':' and the seconds
    useMilitaryTime: bool,     // true: keep the 24-hour value; false: convert to 12-hour
    showAMPM: bool,            // show the AM/PM marker (12-hour display only)
    showDate: bool,            // show the date line
    showGreeting: bool         // show the greeting line
  )

  /** The options as the widget ships them. */
  const Defaults := Config(
    usePadZero := true,
    flashTimeSeparator := false,
    displaySeconds := false,
    useMilitaryTime := false,
    showAMPM := false,
    showDate := true,
    showGreeting := false)

  /** The `dateStyle` choices of `toLocaleDateString`. */
  datatype DateStyle = Full | Long | Medium | Short

  /** Locale-aware date formatting (`new Date(date).toLocaleDateString(lang, {dateStyle})`),
      supplied by the host: raw date text, style, locale. */
  type DateFormatter = (string, DateStyle, string) -> string

  // ---------------------------------------------------------------------------
  // Hour conversion and padding

  /** An hour as the widget holds it: the raw digit token, or a number it computed. */
  datatype HourValue = Digits(text: DigitString) | Number(n: nat)

  /** The number an hour value stands for (a digit token compares as its decimal value). */
  function Value(h: HourValue): nat
  {
    match h
    case Digits(t) => DigitsValue(t)
    case Number(n) => n
  }

  /** The text an hour value is shown as. */
  function Show(h: HourValue): (s: string)
    ensures IsDigits(s)
  {
    match h
    case Digits(t) => t
    case Number(n) => Decimal(n)
  }

  /** With 24-hour display off, the 24-hour token becomes a 12-hour number
      (0 reads 12, above 12 loses 12); with it on, the token is returned as it is. */
  function HoursToMilitaryTime(cfg: Config, hour: DigitString): (r: HourValue)
    ensures cfg.useMilitaryTime ==> r == Digits(hour)
    ensures !cfg.useMilitaryTime ==> r.Number? && r.n % 12 == DigitsValue(hour) % 12
    ensures !cfg.useMilitaryTime && DigitsValue(hour) <= 24 ==> 1 <= r.n <= 12
    ensures !cfg.useMilitaryTime && DigitsValue(hour) > 12 ==> r.n == DigitsValue(hour) - 12
  {
    if !cfg.useMilitaryTime then
      var parsedHour := DigitsValue(hour);
      if parsedHour > 12 then Number(parsedHour - 12)
      else if parsedHour == 0 then Number(12)
      else Number(parsedHour)
    else Digits(hour)
  }

  /** The 24-hour reading of a 12-hour value and its half of the day. */
  function From12Hour(n: nat, pm: bool): nat
  {
    n % 12 + (if pm then 12 else 0)
  }

  /** The 12-hour value together with AM/PM determines the hour of the day. */
  lemma TwelveHourRoundTrip(cfg: Config, hour: DigitString)
    requires !cfg.useMilitaryTime && DigitsValue(hour) <= 23
    ensures From12Hour(HoursToMilitaryTime(cfg, hour).n, DigitsValue(hour) >= 12) == DigitsValue(hour)
  {
  }

  /** Padding happens only in 12-hour display with padding on. */
  predicate PadsHours(cfg: Config)
  {
    cfg.usePadZero && !cfg.useMilitaryTime
  }

  /** A zero goes in front of an hour below ten, when the options ask for it. */
  function PadZero(cfg: Config, number: HourValue): (r: HourValue)
    ensures Value(r) == Value(number)
    ensures Show(r) == "0" + Show(number) <==> PadsHours(cfg) && Value(number) < 10
    ensures !(PadsHours(cfg) && Value(number) < 10) ==> r == number
  {
    if PadsHours(cfg) then
      if Value(number) < 10 then
        LeadingZeroValue(Show(number));
        ShowValue(number);
        Digits("0" + Show(number))
      else number
    else number
  }

  /** The shown text of an hour reads back as its value. */
  lemma ShowValue(h: HourValue)
    ensures DigitsValue(Show(h)) == Value(h)
  {
    if h.Number? {
      DecimalValue(h.n);
    }
  }

  /** In 12-hour display with padding, every hour of the day is shown as exactly two
      digits reading 1 to 12. */
  lemma DisplayedHourTwoDigits(cfg: Config, hour: DigitString)
    requires PadsHours(cfg) && DigitsValue(hour) <= 23
    ensures var shown := Show(PadZero(cfg, HoursToMilitaryTime(cfg, hour)));
      |shown| == 2 && 1 <= DigitsValue(shown) <= 12
  {
    var h := HoursToMilitaryTime(cfg, hour);
    var p := PadZero(cfg, h);
    DecimalLength(h.n);
    ShowValue(p);
  }

  /** The hour as displayed: the raw token in 24-hour display; otherwise digits with
      the same 12-hour reading, two of them when padding is on. */
  lemma DisplayedHour(cfg: Config, hour: DigitString)
    ensures var shown := Show(PadZero(cfg, HoursToMilitaryTime(cfg, hour)));
      && (cfg.useMilitaryTime ==> shown == hour)
      && (!cfg.useMilitaryTime ==> IsDigits(shown) && DigitsValue(shown) % 12 == DigitsValue(hour) % 12)
      && (PadsHours(cfg) && DigitsValue(hour) <= 23 ==> |shown| == 2)
      && (!cfg.useMilitaryTime && DigitsValue(hour) <= 24 ==> 1 <= DigitsValue(shown) <= 12)
      && (!cfg.useMilitaryTime && !cfg.usePadZero ==> shown == Decimal(HoursToMilitaryTime(cfg, hour).n))
      && (PadsHours(cfg) ==> var n := HoursToMilitaryTime(cfg, hour).n;
            shown == if n < 10 then "0" + Decimal(n) else Decimal(n))
  {
    ShowValue(PadZero(cfg, HoursToMilitaryTime(cfg, hour)));
    if PadsHours(cfg) && DigitsValue(hour) <= 23 {
      DisplayedHourTwoDigits(cfg, hour);
    }
  }

  // ---------------------------------------------------------------------------
  // Separator flash

  const FlasherShow := "flasher-show"
  const FlasherHide := "flasher-hide"

  /** The CSS class of the ':' separator for the sampled second. */
  function UseFlashedTimeSeparator(cfg: Config, seconds: nat): (r: string)
    ensures r == FlasherShow || r == FlasherHide
    ensures !cfg.flashTimeSeparator ==> r == FlasherShow
    ensures cfg.flashTimeSeparator ==> (r == FlasherShow <==> seconds % 2 == 0)
  {
    if cfg.flashTimeSeparator then
      if seconds % 2 == 0 then FlasherShow else FlasherHide
    else FlasherShow
  }

  /** With flashing on, the separator changes class every second. */
  lemma SeparatorAlternates(cfg: Config, seconds: nat)
    requires cfg.flashTimeSeparator
    ensures UseFlashedTimeSeparator(cfg, seconds) != UseFlashedTimeSeparator(cfg, seconds + 1)
  {
  }

  // ---------------------------------------------------------------------------
  // Greeting

  datatype Period = Morning | Afternoon | Evening

  /** The part of the day an hour falls in, as the greeting sees it: afternoon from 12
      up to 17, evening after 17 and before 5, morning otherwise, which includes 17. */
  function PeriodOf(time: int): (p: Period)
    ensures p == Afternoon <==> 12 <= time < 17
    ensures p == Evening <==> time > 17 || time < 5
    ensures p == Morning <==> 5 <= time < 12 || time == 17
  {
    if 12 <= time < 17 then Afternoon
    else if time > 17 || time < 5 then Evening
    else Morning
  }

  /** The three greetings of one language: entries 0, 1 and 2 of its row. */
  datatype Phrases = Phrases(morning: string, afternoon: string, evening: string)

  function Phrase(row: Phrases, p: Period): string
  {
    match p
    case Morning => row.morning
    case Afternoon => row.afternoon
    case Evening => row.evening
  }

  /** The translation table: two-letter language code to its greetings. */
  type Languages = map<string, Phrases>

  const English := Phrases("Good Morning", "Good Afternoon", "Good Evening")

  /** The greeting for a language code and an hour. English is built in; any other code
      is looked up in the table, and a code the table lacks has no greeting. */
  function Translate(languages: Languages, processLang: string, time: int): (r: Option<string>)
    ensures processLang == "en" ==> r == Some(Phrase(English, PeriodOf(time)))
    ensures processLang != "en" ==> (r.Some? <==> processLang in languages)
    ensures processLang != "en" && processLang in languages ==>
      r == Some(Phrase(languages[processLang], PeriodOf(time)))
  {
    if processLang == "en" then
      var greeting :=
        if time >= 12 && time < 17 then "Good Afternoon"
        else if time > 17 || time < 5 then "Good Evening"
        else "Good Morning";
      Some(greeting)
    else if processLang !in languages then None
    else
      var row := languages[processLang];
      var greeting :=
        if time >= 12 && time < 17 then row.afternoon
        else if time > 17 || time < 5 then row.evening
        else row.morning;
      Some(greeting)
  }

  /** In English the greeting is one of the three fixed phrases. */
  lemma EnglishGreetings(languages: Languages, time: int)
    ensures Translate(languages, "en", time).value in {"Good Morning", "Good Afternoon", "Good Evening"}
  {
  }

  /** The language key: the first two characters of the locale string. */
  function ProcessLang(userLang: string): (r: string)
    ensures |r| == if |userLang| < 2 then |userLang| else 2
    ensures r <= userLang
  {
    if |userLang| < 2 then userLang else userLang[..2]
  }

  // ---------------------------------------------------------------------------
  // Parsing the command output

  /** The fields of one sample of the command output. */
  datatype Sample = Sample(
    hour: DigitString,     // `%H`
    minutes: string,       // `%M`
    seconds: DigitString,  // `%S`
    amPm: string,          // `%p`
    date: string,          // the text after the first '|' of the first line
    username: string)      // the second line

  /** The fields split from the output: lines on '\n'; the first line on '|'; the part
      before the first '|' on ' ', taking tokens 0 to 3. None when a piece the widget
      reads is missing, or when the hour or seconds token is not a digit string. */
  function ParseOutput(output: string): (r: Option<Sample>)
    ensures r.Some? <==>
      var lines := Split(output, '\n');
      var datetime := Split(lines[0], '|');
      var timeArray := Split(datetime[0], ' ');
      |lines| >= 2 && |datetime| >= 2 && |timeArray| >= 4 &&
      IsDigits(timeArray[0]) && IsDigits(timeArray[2])
  {
    var commandValues := Split(output, '\n');
    if |commandValues| < 2 then None
    else
      var username := commandValues[1];
      var datetime := Split(commandValues[0], '|');
      if |datetime| < 2 then None
      else
        var timeArray := Split(datetime[0], ' ');
        if |timeArray| < 4 || !IsDigits(timeArray[0]) || !IsDigits(timeArray[2]) then None
        else Some(Sample(timeArray[0], timeArray[1], timeArray[2], timeArray[3], datetime[1], username))
  }

  /** The four time tokens as they stand at the start of the first line. */
  function TimeText(s: Sample): string
  {
    s.hour + " " + s.minutes + " " + s.seconds + " " + s.amPm
  }

  /** Every field is free of the separators that delimit it. */
  predicate Clean(s: Sample)
  {
    && IsToken(s.hour) && IsToken(s.minutes) && IsToken(s.seconds) && IsToken(s.amPm)
    && '|' !in s.date && '\n' !in s.date
    && '\n' !in s.username
  }

  /** A time token holds none of the three separators. */
  predicate IsToken(t: string)
  {
    ' ' !in t && '|' !in t && '\n' !in t
  }

  /** The output the widget's command prints for a sample: `date` then `whoami`, each
      ending its line. */
  function CommandOutput(s: Sample): string
  {
    TimeText(s) + " |" + s.date + "\n" + s.username + "\n"
  }

  /** The time segment of the printed line splits into the four tokens and the empty
      piece after the trailing space. */
  lemma TimeSegmentSplits(s: Sample)
    requires Clean(s)
    ensures Split(TimeText(s) + " ", ' ') == [s.hour, s.minutes, s.seconds, s.amPm, ""]
  {
    var tokens := [s.hour, s.minutes, s.seconds, s.amPm, ""];
    JoinCons(s.amPm, [""], ' ');
    JoinCons(s.seconds, [s.amPm, ""], ' ');
    JoinCons(s.minutes, [s.seconds, s.amPm, ""], ' ');
    JoinCons(s.hour, [s.minutes, s.seconds, s.amPm, ""], ' ');
    assert [s.amPm] + [""] == [s.amPm, ""];
    assert [s.seconds] + [s.amPm, ""] == [s.seconds, s.amPm, ""];
    assert [s.minutes] + [s.seconds, s.amPm, ""] == [s.minutes, s.seconds, s.amPm, ""];
    assert [s.hour] + [s.minutes, s.seconds, s.amPm, ""] == tokens;
    assert Join([""], ' ') == "";
    assert Join([s.amPm, ""], ' ') == s.amPm + " ";
    assert Join([s.seconds, s.amPm, ""], ' ') == s.seconds + " " + s.amPm + " ";
    assert Join(tokens, ' ') == TimeText(s) + " ";
    assert Free(tokens, ' ');
    SplitJoin(tokens, ' ');
  }

  /** The printed first line splits on '|' into the time segment and the date. */
  lemma DateTimeLineSplits(s: Sample)
    requires Clean(s)
    ensures Split(TimeText(s) + " |" + s.date, '|') == [TimeText(s) + " ", s.date]
  {
    var segment := TimeText(s) + " ";
    JoinCons(segment, [s.date], '|');
    assert [segment] + [s.date] == [segment, s.date];
    assert segment + "|" + s.date == TimeText(s) + " |" + s.date;
    assert Free([segment, s.date], '|');
    SplitJoin([segment, s.date], '|');
  }

  /** The printed output splits into the two lines and the empty piece after the last
      newline. */
  lemma CommandOutputLines(s: Sample)
    requires Clean(s)
    ensures Split(CommandOutput(s), '\n') == [TimeText(s) + " |" + s.date, s.username, ""]
  {
    var line0 := TimeText(s) + " |" + s.date;
    var lines := [line0, s.username, ""];
    JoinCons(s.username, [""], '\n');
    JoinCons(line0, [s.username, ""], '\n');
    assert [s.username] + [""] == [s.username, ""];
    assert [line0] + [s.username, ""] == lines;
    assert Join(lines, '\n') == CommandOutput(s);
    assert '\n' !in line0;
    assert Free(lines, '\n');
    SplitJoin(lines, '\n');
  }

  /** Parsing what the command prints recovers every field. */
  lemma ParseCommandOutput(s: Sample)
    requires Clean(s)
    ensures ParseOutput(CommandOutput(s)) == Some(s)
  {
    CommandOutputLines(s);
    DateTimeLineSplits(s);
    TimeSegmentSplits(s);
  }

  /** A successful parse reads its fields from where they stand: the username is the
      whole second line, the date is the whole text between the first '|' of the first
      line and the next '|' or the line's end, the four tokens open the text before that
      first '|' (the fourth ending at a space or at that '|'), and no field holds a
      separator that delimits it. */
  lemma ParseSound(output: string)
    requires ParseOutput(output).Some?
    ensures var s := ParseOutput(output).value;
      var line0 := Split(output, '\n')[0];
      var segment := Split(line0, '|')[0];
      && '\n' !in line0 && '|' !in segment
      && line0 + "\n" + s.username <= output
      && (line0 + "\n" + s.username == output || line0 + "\n" + s.username + "\n" <= output)
      && segment + "|" + s.date <= line0
      && (segment + "|" + s.date == line0 || segment + "|" + s.date + "|" <= line0)
      && TimeText(s) <= segment
      && (TimeText(s) == segment || TimeText(s) + " " <= segment)
      && Clean(s)
  {
    var lines := Split(output, '\n');
    SplitFirstTwo(output, '\n');
    var datetime := Split(lines[0], '|');
    SplitFirstTwo(lines[0], '|');
    SplitKeepsAbsent(lines[0], '|', '\n');
    var timeArray := Split(datetime[0], ' ');
    SplitFirstFour(datetime[0], ' ');
    SplitKeepsAbsent(datetime[0], ' ', '|');
    SplitKeepsAbsent(datetime[0], ' ', '\n');
    assert timeArray[0] + " " + timeArray[1] + " " + timeArray[2] + " " + timeArray[3] <= datetime[0];
  }

  // ---------------------------------------------------------------------------
  // Assembling what the widget shows

  /** The name the greeting line ends with; it is fixed, not the parsed username. */
  const DisplayName := "Tyler"

  datatype Greeting = Greeting(phrase: string, name: string)

  /** What one refresh shows; an absent field is not drawn. */
  datatype View = View(
    date: Option<string>,
    hour: string,
    separatorClass: string,
    minutes: string,
    secondsSeparatorClass: Option<string>,
    seconds: Option<string>,
    amPm: Option<string>,
    greeting: Option<Greeting>)

  /** Why a refresh shows nothing: the output lacks a field the widget reads, or the
      language is neither English nor in the table (the lookup fails at run time). */
  datatype RenderError = MalformedOutput | UnknownLanguage(code: string)

  /** One refresh: parse the output, compute the greeting from the raw hour, the
      separator class from the seconds and the full-style date, convert and pad the
      hour, and keep only the fields the options switch on. */
  function Render(cfg: Config, languages: Languages, setDateStyle: DateFormatter,
                  userLang: string, output: string): (r: Result<View, RenderError>)
    ensures ParseOutput(output).None? <==> r == Failure(MalformedOutput)
    ensures ParseOutput(output).Some? ==>
      (r.Success? <==> ProcessLang(userLang) == "en" || ProcessLang(userLang) in languages)
    ensures r.Failure? && ParseOutput(output).Some? ==>
      r.error == UnknownLanguage(ProcessLang(userLang))
    ensures r.Success? ==>
      var s := ParseOutput(output).value;
      var v := r.value;
      && (v.date.Some? <==> cfg.showDate)
      && (cfg.showDate ==> v.date.value == setDateStyle(s.date, Full, userLang))
      && (cfg.useMilitaryTime ==> v.hour == s.hour)
      && (!cfg.useMilitaryTime ==> IsDigits(v.hour) && DigitsValue(v.hour) % 12 == DigitsValue(s.hour) % 12)
      && (PadsHours(cfg) && DigitsValue(s.hour) <= 23 ==> |v.hour| == 2)
      && (!cfg.useMilitaryTime ==> v.hour == Show(PadZero(cfg, HoursToMilitaryTime(cfg, s.hour))))
      && v.separatorClass == UseFlashedTimeSeparator(cfg, DigitsValue(s.seconds))
      && v.minutes == s.minutes
      && (v.secondsSeparatorClass.Some? <==> cfg.displaySeconds)
      && (v.seconds.Some? <==> cfg.displaySeconds)
      && (cfg.displaySeconds ==> v.secondsSeparatorClass == Some(v.separatorClass) && v.seconds == Some(s.seconds))
      && (v.amPm.Some? <==> !cfg.useMilitaryTime && cfg.showAMPM)
      && (v.amPm.Some? ==> v.amPm.value == s.amPm)
      && (v.greeting.Some? <==> cfg.showGreeting)
      && (cfg.showGreeting ==> v.greeting == Some(Greeting(
            Phrase(if ProcessLang(userLang) == "en" then English else languages[ProcessLang(userLang)],
                   PeriodOf(DigitsValue(s.hour))),
            DisplayName)))
  {
    match ParseOutput(output)
    case None => Failure(MalformedOutput)
    case Some(s) =>
      var processLang := ProcessLang(userLang);
      match Translate(languages, processLang, DigitsValue(s.hour))
      case None => Failure(UnknownLanguage(processLang))
      case Some(greeting) =>
        var className := UseFlashedTimeSeparator(cfg, DigitsValue(s.seconds));
        var date := setDateStyle(s.date, Full, userLang);
        var converted := HoursToMilitaryTime(cfg, s.hour);
        var hour := Show(PadZero(cfg, converted));
        DisplayedHour(cfg, s.hour);
        Success(View(
          if cfg.showDate then Some(date) else None,
          hour,
          className,
          s.minutes,
          if cfg.displaySeconds then Some(className) else None,
          if cfg.displaySeconds then Some(s.seconds) else None,
          if cfg.useMilitaryTime || !cfg.showAMPM then None else Some(s.amPm),
          if cfg.showGreeting then Some(Greeting(greeting, DisplayName)) else None))
  }

  /** The greeting sees the hour as sampled: switching 24-hour display or padding never
      changes it. */
  lemma GreetingUsesRawHour(cfg: Config, military: bool, pad: bool, languages: Languages,
                            setDateStyle: DateFormatter, userLang: string, output: string)
    requires Render(cfg, languages, setDateStyle, userLang, output).Success?
    ensures var other := cfg.(useMilitaryTime := military, usePadZero := pad);
      var r := Render(other, languages, setDateStyle, userLang, output);
      r.Success? && r.value.greeting == Render(cfg, languages, setDateStyle, userLang, output).value.greeting
  {
  }

  /** The username line is read but never shown: the view is the same whoever is
      logged in. */
  lemma UsernameNotShown(cfg: Config, languages: Languages, setDateStyle: DateFormatter,
                         userLang: string, s: Sample, user: string)
    requires Clean(s) && '\n' !in user
    ensures Render(cfg, languages, setDateStyle, userLang, CommandOutput(s)) ==
            Render(cfg, languages, setDateStyle, userLang, CommandOutput(s.(username := user)))
  {
    ParseCommandOutput(s);
    ParseCommandOutput(s.(username := user));
  }

  /** Output of a single line cannot be shown. */
  lemma SingleLineIsMalformed(cfg: Config, languages: Languages, setDateStyle: DateFormatter,
                              userLang: string, output: string)
    requires '\n' !in output
    ensures Render(cfg, languages, setDateStyle, userLang, output) == Failure(MalformedOutput)
  {
    SplitWithoutSeparator(output, '\n');
  }

  /** A first line without '|' cannot be shown. */
  lemma NoBarIsMalformed(cfg: Config, languages: Languages, setDateStyle: DateFormatter,
                         userLang: string, output: string)
    requires '|' !in Split(output, '\n')[0]
    ensures Render(cfg, languages, setDateStyle, userLang, output) == Failure(MalformedOutput)
  {
    SplitWithoutSeparator(Split(output, '\n')[0], '|');
  }

  /** What the shipped options show for any sample: the date line, the 12-hour hour as
      two digits, an always-visible separator, and no seconds, AM/PM or greeting. */
  lemma DefaultsView(languages: Languages, setDateStyle: DateFormatter, userLang: string, output: string)
    requires Render(Defaults, languages, setDateStyle, userLang, output).Success?
    ensures var v := Render(Defaults, languages, setDateStyle, userLang, output).value;
      var s := ParseOutput(output).value;
      && v.date == Some(setDateStyle(s.date, Full, userLang))
      && v.separatorClass == FlasherShow
      && v.seconds.None? && v.secondsSeparatorClass.None? && v.amPm.None? && v.greeting.None?
      && (DigitsValue(s.hour) <= 23 ==> |v.hour| == 2 && 1 <= DigitsValue(v.hour) <= 12)
  {
  }

  /** A morning sample (09:05:30) under the shipped options, American English locale: the date line
      and a padded two-digit hour with a visible separator; no seconds, no AM/PM, no
      greeting. */
  lemma DefaultsMorningExample(languages: Languages, setDateStyle: DateFormatter, date: string, user: string)
    requires '|' !in date && '\n' !in date && '\n' !in user
    ensures var s := Sample("09", "05", "30", "AM", date, user);
      Render(Defaults, languages, setDateStyle, "en-US", CommandOutput(s)) ==
      Success(View(Some(setDateStyle(date, Full, "en-US")), "09", FlasherShow, "05",
                   None, None, None, None))
  {
    var s := Sample("09", "05", "30", "AM", date, user);
    assert Clean(s);
    ParseCommandOutput(s);
    var out := CommandOutput(s);
    var r := Render(Defaults, languages, setDateStyle, "en-US", out);
    assert r.Success?;
    var v := r.value;
    assert DigitsValue("09") == 9 && DigitsValue("30") == 30;
    assert v.date == Some(setDateStyle(date, Full, "en-US"));
    assert v.separatorClass == FlasherShow;
    assert v.minutes == "05";
    assert v.seconds == None && v.secondsSeparatorClass == None && v.amPm == None && v.greeting == None;
    assert HoursToMilitaryTime(Defaults, "09") == Number(9);
    assert Decimal(9) == "9";
    assert PadZero(Defaults, Number(9)) == Digits("09");
    assert v.hour == "09";
  }

  /** An afternoon sample (14:07:41) in 12-hour display with AM/PM, seconds, flashing and the
      greeting on: hour "14" shows as "2" padded to "02", the greeting is the afternoon
      one although the shown hour is below 12, and the odd second hides the separator. */
  lemma AfternoonExample(languages: Languages, setDateStyle: DateFormatter, date: string, user: string)
    requires '|' !in date && '\n' !in date && '\n' !in user
    ensures var s := Sample("14", "07", "41", "PM", date, user);
      var cfg := Config(true, true, true, false, true, false, true);
      Render(cfg, languages, setDateStyle, "en-GB", CommandOutput(s)) ==
      Success(View(None, "02", FlasherHide, "07", Some(FlasherHide), Some("41"), Some("PM"),
                   Some(Greeting("Good Afternoon", "Tyler"))))
  {
    var s := Sample("14", "07", "41", "PM", date, user);
    var cfg := Config(true, true, true, false, true, false, true);
    assert DigitsValue("14") == 14 && DigitsValue("41") == 41;
    assert HoursToMilitaryTime(cfg, "14") == Number(2);
    assert Decimal(2) == "2";
    assert PadZero(cfg, Number(2)) == Digits("02");
    assert Clean(s);
    ParseCommandOutput(s);
    var r := Render(cfg, languages, setDateStyle, "en-GB", CommandOutput(s));
    assert r.Success?;
    assert r.value.hour == "02";
    assert r.value.greeting == Some(Greeting("Good Afternoon", "Tyler"));
  }
}
