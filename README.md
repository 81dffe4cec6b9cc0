# Clock widget model

A Dafny model of the logic in `Clock.widget/Clock.jsx`, an Übersicht desktop widget.
Once a second the host runs `date '+%H %M %S %p | %a, %d %b, %Y'; whoami` and hands
the text to `render`. From that one sample `render` builds a date line, the hour, a
(possibly flashing) `:` separator, the minutes, optional seconds and AM/PM, and an
optional greeting.

Everything is pure, so the model is functions and lemmas:

- `Wrappers.dfy`: `Option` and `Result`.
- `Text.dfy`: JavaScript's `split` with a one-character separator, the matching `join`,
  their two round trips, and decimal digit strings. A digit string's value is what
  `parseInt` and numeric comparison read from it. `Decimal` is what a number shows as.
- `Clock.dfy`: the display options, kept as one immutable `Config` value. `Defaults` holds
  the values the file ships with. The file also has `HoursToMilitaryTime`, `PadZero`,
  `UseFlashedTimeSeparator`, `Translate` and its day-period buckets, parsing of the command
  output, and `Render`. `Render` assembles a `View` record, with each optional field
  present or absent according to the options.

The hour keeps its JavaScript `number|string` shape as `HourValue`. In 24-hour display,
`HoursToMilitaryTime` returns the raw token, so "09" is shown as "09". In 12-hour display
it returns a number, and `PadZero` may turn that number into a string with a leading zero.
The greeting is computed from the raw parsed hour, before conversion and padding. It ends
with the fixed name "Tyler", not the parsed username.

The source does not check the shape of the output. A missing line, a missing `|` or
missing tokens give JavaScript `undefined` values. Here `ParseOutput` returns `None` in
those cases, and also when the hour or seconds token is not a string of digits. `Render`
then returns `Failure(MalformedOutput)`. The source reads tokens 0 to 3 of the time
segment and ignores the rest. The real command prints five tokens, because a space comes
before the `|`, so the model requires at least four tokens, not exactly four.

`translate` is called on every refresh, even when the greeting is hidden. For a language
code that is neither `en` nor in the table, it indexes `undefined` and throws. The model
follows the code: `Render` returns `Failure(UnknownLanguage(code))`, whatever
`showGreeting` is. It does not fall back to an empty greeting.

## Model

| member | source | states |
|---|---|---|
| Text.Split | Clock.widget/Clock.jsx:196-199 | splitting a string always yields at least one piece, as `split` does |
| Text.JoinSplit | Clock.widget/Clock.jsx:196-199 | joining the pieces of a split with the separator gives back the original string |
| Text.SplitFree | Clock.widget/Clock.jsx:196-199 | no piece of a split contains the separator |
| Text.SplitKeepsAbsent | Clock.widget/Clock.jsx:198-199 | a character missing from a string is missing from every one of its pieces |
| Text.SplitWithoutSeparator | Clock.widget/Clock.jsx:196-199 | a string without the separator splits into just itself |
| Text.SplitAfterPrefix | Clock.widget/Clock.jsx:196-199 | a separator-free prefix followed by the separator becomes the first piece, and the rest splits on its own |
| Text.SplitJoin | Clock.widget/Clock.jsx:196-199 | splitting a join of separator-free pieces gives the same pieces back |
| Text.SplitHead | Clock.widget/Clock.jsx:198 | the first piece is the text before the first separator: it has no separator, it is the whole string exactly when there is no separator, and otherwise the separator and the later pieces follow it |
| Text.SplitFirstTwo | Clock.widget/Clock.jsx:196-198 | with two or more pieces, the string opens with piece 0, the separator and piece 1 |
| Text.SplitFirstFour | Clock.widget/Clock.jsx:199-204 | with four or more pieces, the string opens with pieces 0 to 3 joined by the separator |
| Text.DigitsValue | Clock.widget/Clock.jsx:184 | the number a digit string denotes, as `parseInt` and the numeric comparisons read it, is below 10 to the power of its length |
| Text.Decimal | Clock.widget/Clock.jsx:141 | a number is shown as a non-empty digit string without a leading zero |
| Text.DecimalValue | Clock.widget/Clock.jsx:184 | reading a number's decimal text back gives the number |
| Text.DecimalLength | Clock.widget/Clock.jsx:141 | a number's decimal text has one digit exactly when the number is below 10, and two exactly when it is 10 to 99 |
| Text.LeadingZeroValue | Clock.widget/Clock.jsx:141 | a leading "0" does not change the value of a digit string |
| Clock.HoursToMilitaryTime | Clock.widget/Clock.jsx:182-193 | in 24-hour mode the token is returned untouched; otherwise the result is a number with the same value modulo 12, in 1..12 for every hour 0..24, and hour−12 above 12 |
| Clock.TwelveHourRoundTrip | Clock.widget/Clock.jsx:182-193 | for hours 0..23, the 12-hour value together with AM/PM gives back the 24-hour hour |
| Clock.PadZero | Clock.widget/Clock.jsx:139-144 | the result is "0" plus the input exactly when padding is on, 24-hour mode is off and the value is below 10; otherwise the input is unchanged; the value never changes |
| Clock.Show | Clock.widget/Clock.jsx:222 | an hour, token or number, is always shown as a non-empty digit string |
| Clock.ShowValue | Clock.widget/Clock.jsx:222 | the shown text of an hour reads back as its value |
| Clock.DisplayedHourTwoDigits | Clock.widget/Clock.jsx:214 | with padding in 12-hour mode, every hour 0..23 is shown as exactly two digits reading 1..12 |
| Clock.DisplayedHour | Clock.widget/Clock.jsx:214 | the displayed hour is the raw token in 24-hour mode; in 12-hour mode it reads 1..12 for every hour 0..24, it is exactly the decimal text of the converted hour when padding is off, and that text with a "0" in front for converted hours below 10 when padding is on |
| Clock.UseFlashedTimeSeparator | Clock.widget/Clock.jsx:127-132 | the class is always "flasher-show" when flashing is off; when flashing is on, it is "flasher-show" exactly for even seconds and "flasher-hide" otherwise |
| Clock.SeparatorAlternates | Clock.widget/Clock.jsx:127-132 | with flashing on, consecutive seconds get different classes |
| Clock.PeriodOf | Clock.widget/Clock.jsx:157-161 | afternoon exactly for 12 ≤ h < 17; evening exactly for h > 17 or h < 5; morning exactly for 5..11 and the gap hour 17 |
| Clock.Translate | Clock.widget/Clock.jsx:153-173 | for "en", the built-in English phrase for the hour's period; otherwise a greeting exists exactly when the code is in the table, and it is entry 0/1/2 of that row for morning/afternoon/evening |
| Clock.EnglishGreetings | Clock.widget/Clock.jsx:155-161 | in English the greeting is one of "Good Morning", "Good Afternoon", "Good Evening" |
| Clock.ProcessLang | Clock.widget/Clock.jsx:207 | the language key is the prefix of the locale string of length min(2, its length) |
| Clock.ParseOutput | Clock.widget/Clock.jsx:196-204 | a sample exists exactly when there are two lines, a bar on line 0, four space-separated tokens before it, and the hour and seconds tokens are digit strings |
| Clock.TimeSegmentSplits | Clock.widget/Clock.jsx:199 | the printed time segment splits on ' ' into the four tokens and a trailing empty piece |
| Clock.DateTimeLineSplits | Clock.widget/Clock.jsx:198 | the printed first line splits on the bar into the time segment and the date |
| Clock.CommandOutputLines | Clock.widget/Clock.jsx:196 | the printed output splits on newline into the date line, the username and a trailing empty piece |
| Clock.ParseCommandOutput | Clock.widget/Clock.jsx:5 | parsing what the command prints, for fields free of their separators, gives back every field |
| Clock.ParseSound | Clock.widget/Clock.jsx:196-204 | a parsed sample's fields stand where the code reads them: the username is all of line 1 (it ends at a newline or at the end of the output), the date is all the text from the first bar to the next bar or the line's end, the four tokens open the segment before the first bar with the fourth ending at a space or at the bar, and no field contains its separators |
| Clock.Render | Clock.widget/Clock.jsx:194-238 | malformed output fails; an unknown language fails; otherwise the hour is the raw token in 24-hour mode and the padded converted hour (as DisplayedHour describes it) in 12-hour mode, the date is present exactly when showDate holds, seconds and their separator exactly when displaySeconds holds, AM/PM exactly in 12-hour mode with showAMPM, and the greeting exactly when showGreeting holds, from the raw hour and followed by "Tyler" |
| Clock.GreetingUsesRawHour | Clock.widget/Clock.jsx:208-214 | switching 24-hour mode or padding never changes the greeting |
| Clock.UsernameNotShown | Clock.widget/Clock.jsx:233 | the view is the same whatever username the second line holds |
| Clock.SingleLineIsMalformed | Clock.widget/Clock.jsx:196-197 | output without a newline produces no view |
| Clock.NoBarIsMalformed | Clock.widget/Clock.jsx:198 | a first line without the bar produces no view |
| Clock.DefaultsView | Clock.widget/Clock.jsx:75-99 | under the shipped options every shown sample has the date line, an always-visible separator, no seconds, no AM/PM and no greeting, and for hours 0..23 a two-digit hour reading 1..12 |
| Clock.DefaultsMorningExample | Clock.widget/Clock.jsx:75-99 | under the shipped options, 09:05:30 shows the date, hour "09", a visible separator and minutes "05", with no seconds, no AM/PM and no greeting |
| Clock.AfternoonExample | Clock.widget/Clock.jsx:206-234 | at 14:07:41 in 12-hour mode with everything but the date on, the hour shows as "02", the odd second hides the separator, and the greeting is "Good Afternoon" followed by "Tyler" |

## Left out

- `setDateStyle` (`toLocaleDateString` with a locale and a `dateStyle`) is foreign locale code. It is a `DateFormatter` parameter of `Render`, and `dataFormat` is the `DateStyle` enum. `Render` always passes `Full`, as the code does. How an unparseable date string is rendered is decided by that parameter.
- The CSS in `className` and the JSX markup are presentation only. The output is the `View` record, and an absent field is one the markup does not draw.
- The shell `command`, running it, and `refreshFrequency` belong to the host. `CommandOutput` models only the shape of the text the command prints.
- `navigator.language` / `navigator.userLanguage` come from the environment. The locale string is a parameter.
- The contents of `lang.json` are not part of this model. The table is an abstract map from a language code to its three phrases; the row's internal layout (`[0]["Good morning"]` and so on) is reduced to three fields.
- Implicit string-to-number coercion (`"09" >= 12`, `"30" % 2`) is not modelled as such: the hour and seconds tokens are read as numbers once, in `ParseOutput`.
- Clock.HoursToMilitaryTime: takes only digit-string tokens. `parseInt` on other text (`NaN`, signs, leading blanks, a `0x` prefix) is not modelled, because parsing already rejects such tokens.
- Clock.ParseOutput: fails where the source does not. With a missing line, `|` or token, or a non-digit hour or seconds token, the source goes on with `undefined` or `NaN` values and draws whatever comes out. The model draws nothing.
- Clock.Render: a language missing from the table is a failure for the whole refresh, as the thrown `TypeError` makes it in the source. It is not a fallback to an empty greeting.
