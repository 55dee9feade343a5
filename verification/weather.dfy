/** The weather widget: the WMO weather-code table, the code-to-category rule
    that picks the page's background and icon, and the two buttons that set the
    code by hand, either from a code or from an hour of the day. */
module Weather {
  import opened Wrappers

  datatype WeatherType = Sunny | Cloudy | Rainy | Stormy | Default

  /** `weatherCodeMap`: the codes the page can describe. */
  const CodeMap: map<int, string> := map[
    0 := "Clear sky", 1 := "Mainly clear", 2 := "Partly cloudy", 3 := "Overcast",
    45 := "Fog", 48 := "Fog",
    51 := "Drizzle (light)", 53 := "Drizzle (moderate)", 55 := "Drizzle (dense)",
    61 := "Rain (light)", 63 := "Rain (moderate)", 65 := "Rain (heavy)",
    80 := "Rain showers (light)", 81 := "Rain showers (moderate)", 82 := "Rain showers (violent)",
    95 := "Thunderstorm (mild)", 96 := "Thunderstorm w/ hail", 99 := "Thunderstorm w/ heavy hail"
  ]

  /** `weatherType`: the chain of comparisons on the code. */
  function Classify(code: int): (t: WeatherType)
    ensures t == Sunny <==> code == 0
    ensures t == Cloudy <==> code != 0 && code <= 3
    ensures t == Rainy <==> 4 <= code <= 82
    ensures t == Stormy <==> 83 <= code <= 99
    ensures t == Default <==> code > 99
  {
    if code == 0 then Sunny
    else if code <= 3 then Cloudy
    else if code <= 82 then Rainy
    else if code <= 99 then Stormy
    else Default
  }

  /** Position of a category along the code axis. */
  function Rank(t: WeatherType): nat {
    match t
    case Sunny => 0
    case Cloudy => 1
    case Rainy => 2
    case Stormy => 3
    case Default => 4
  }

  /** On the non-negative codes the categories are consecutive bands, in the order
      sunny, cloudy, rainy, stormy, default. */
  lemma ClassifyMonotone(a: int, b: int)
    requires 0 <= a <= b
    ensures Rank(Classify(a)) <= Rank(Classify(b))
  {
  }

  /** `description`: the table's label, falling back to "Unknown" when the lookup
      is undefined or otherwise falsy (the empty string). */
  function Describe(code: int): (d: string)
    ensures code in CodeMap ==> d == CodeMap[code]
    ensures code !in CodeMap ==> d == "Unknown"
    ensures |d| > 0
  {
    if code in CodeMap && CodeMap[code] != "" then CodeMap[code] else "Unknown"
  }

  /** No code of the table falls through to the default category; the clear
      and cloud codes are sunny or cloudy, fog sits with the rainy codes and the
      thunderstorms are stormy. */
  lemma TableCodesClassified(code: int)
    requires code in CodeMap
    ensures Classify(code) != Default
    ensures Describe(code) != "Unknown"
    ensures code <= 3 ==> Classify(code) == Sunny || Classify(code) == Cloudy
    ensures Describe(code) == "Fog" ==> Classify(code) == Rainy
    ensures code >= 95 ==> Classify(code) == Stormy
  {
  }

  /** What a button press does: set a new code, or show an alert and keep the old one. */
  datatype Outcome = SetCode(code: int) | Alert(message: string)

  /** `handleManual`: the parsed input (None when `parseInt` gives NaN) is taken
      only when the table knows it. */
  function HandleManual(parsed: Option<int>): (o: Outcome)
    ensures o.SetCode? <==> parsed.Some? && parsed.value in CodeMap
    ensures o.SetCode? ==> o.code == parsed.value
  {
    if parsed.Some? && parsed.value in CodeMap then SetCode(parsed.value)
    else Alert("Invalid weather code.")
  }

  /** `handleTime`: a daytime hour (6 to 18) means clear sky, any other hour of the
      day means overcast; anything else is refused. */
  function HandleTime(parsed: Option<int>): (o: Outcome)
    ensures o.SetCode? <==> parsed.Some? && 0 <= parsed.value <= 23
    ensures o.SetCode? ==> o.code == (if 6 <= parsed.value <= 18 then 0 else 3)
  {
    if parsed.Some? && parsed.value >= 0 && parsed.value <= 23 then
      SetCode(if parsed.value >= 6 && parsed.value <= 18 then 0 else 3)
    else Alert("Enter hour 0\U{2013}23.")
  }

  /** The code after a button press. */
  function NextCode(code: int, o: Outcome): (r: int)
    ensures o.Alert? ==> r == code
    ensures o.SetCode? ==> r == o.code
  {
    match o
    case SetCode(c) => c
    case Alert(_) => code
  }

  /** A code set by hand is always one the table describes, so a table code
      stays a table code. */
  lemma ManualKeepsTableCode(code: int, parsed: Option<int>)
    requires code in CodeMap
    ensures NextCode(code, HandleManual(parsed)) in CodeMap
  {
  }

  /** A code derived from the hour is a table code and shows as sunny or cloudy. */
  lemma HourCodeIsClearOrOvercast(code: int, hour: int)
    requires 0 <= hour <= 23
    ensures NextCode(code, HandleTime(Some(hour))) in CodeMap
    ensures Classify(NextCode(code, HandleTime(Some(hour)))) == Sunny
            || Classify(NextCode(code, HandleTime(Some(hour)))) == Cloudy
    ensures 6 <= hour <= 18 <==> Classify(NextCode(code, HandleTime(Some(hour)))) == Sunny
  {
  }
}
