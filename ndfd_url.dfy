/** The request URL builder `create_ndfd_url` of both NDFD scripts
    (noaa_forecast/get_noaa_forecast.py:84-136 and
    noaa_forecast/get_forecast.py:79-131, which differ only in the name of
    the longitude parameter). The URL is built by a chain of `str.replace`
    calls on a fixed template; the lemmas show what that chain yields. */
module NdfdUrl {

  import opened Wrappers
  import opened Text

  /** An element of a date argument, of which `str()` is taken. */
  datatype DatePart = Number(n: int) | Word(w: string)

  /** A `start_date` or `end_date` argument: a string (the default is `''`)
      or a tuple or list of parts such as `(2018, 2, 20)`. */
  datatype DateArg = Text(s: string) | Parts(parts: seq<DatePart>)

  function PartString(p: DatePart): string
  {
    match p
    case Number(n) => IntToString(n)
    case Word(w) => w
  }

  function PartStrings(ps: seq<DatePart>): (r: seq<string>)
    ensures |r| == |ps| && forall i | 0 <= i < |ps| :: r[i] == PartString(ps[i])
  {
    seq(|ps|, i requires 0 <= i < |ps| => PartString(ps[i]))
  }

  /** Each character of a string as a string of its own: iterating a `str`. */
  function Chars(s: string): (r: seq<string>)
    ensures |r| == |s| && forall i | 0 <= i < |s| :: r[i] == [s[i]]
  {
    seq(|s|, i requires 0 <= i < |s| => [s[i]])
  }

  /** What is substituted for `START_DATE` or `END_DATE`. A falsy argument
      is passed to `replace` as it is: `''` works, while an empty tuple or
      list makes `replace` raise TypeError (`None`). A truthy one becomes
      `'-'.join(str(x) for x in d)`; a non-empty string is iterated by
      character. */
  function DateText(d: DateArg): (r: Option<string>)
    ensures r.None? <==> d == Parts([])
    ensures d == Text("") ==> r == Some("")
  {
    match d
    case Text(s) => Some(if s == [] then [] else Join("-", Chars(s)))
    case Parts(ps) => if ps == [] then None else Some(Join("-", PartStrings(ps)))
  }

  /** `list(filter(None, ndfd))` is non-empty. */
  predicate AnyRequested(ndfd: seq<string>)
  {
    exists i | 0 <= i < |ndfd| :: ndfd[i] != ""
  }

  function Pairs(ndfd: seq<string>): (r: seq<string>)
    ensures |r| == |ndfd| && forall i | 0 <= i < |ndfd| :: r[i] == ndfd[i] + "=" + ndfd[i]
  {
    seq(|ndfd|, i requires 0 <= i < |ndfd| => ndfd[i] + "=" + ndfd[i])
  }

  /** What is substituted for `NDFD`: every element, empty ones included, as
      `x=x`, joined with `&`, when at least one element is non-empty;
      otherwise nothing. */
  function NdfdText(ndfd: seq<string>): (r: string)
    ensures r == "" <==> !AnyRequested(ndfd)
  {
    if AnyRequested(ndfd) then
      var pairs := Pairs(ndfd);
      assert pairs[|pairs| - 1][|ndfd[|ndfd| - 1]|] == '=';
      Join("&", pairs)
    else ""
  }

  // ---------------------------------------------------------------------
  // The template
  // ---------------------------------------------------------------------

  /** The literal text of `BASE_URL` between its six placeholders. */
  datatype Frame = Frame(stem: string, latKey: string, lonKey: string, beginKey: string,
                         endKey: string, unitGap: string, unitKey: string, ndfdKey: string)

  /** What stands in the six placeholder positions. */
  datatype Fields = Fields(lat: string, lon: string, start: string, end: string,
                           units: string, ndfd: string)

  /** The template with its fields in place. */
  function Render(fr: Frame, v: Fields): string
  {
    fr.stem + (fr.latKey + (v.lat + (fr.lonKey + (v.lon + (fr.beginKey + (v.start +
    (fr.endKey + (v.end + (fr.unitGap + (fr.unitKey + (v.units + (fr.ndfdKey + v.ndfd))))))))))))
  }

  const Host := "https://graphical.weather.gov"
  const Service := "/xml/sample_products"
  const Interface := "/browser_interface/ndfd"
  const LatKey := "Lclient.php?lat="
  const BeginKey := "&product=time-series" + "&begin="
  const EndKey := "T00:00:00&end="
  const UnitGap := "T00:00:00&"
  const UnitKey := "Unit="

  const UrlFrame := Frame(Host + Service + Interface + "XM", LatKey, "&lon=", BeginKey,
                          EndKey, UnitGap, UnitKey, "&")

  const Placeholders := Fields("LATITUDE", "LONGITUDE", "START_DATE", "END_DATE", "UNITS", "NDFD")

  /** `BASE_URL`. */
  const BaseUrl := Render(UrlFrame, Placeholders)

  /** The URL with the given text in each field. */
  function Filled(lat: string, lon: string, start: string, end: string, units: string, ndfd: string): string
  {
    Render(UrlFrame, Fields(lat, lon, start, end, units, ndfd))
  }

  /** The `replace` chain, in the order the source applies it. */
  function Substitute(lat: string, lon: string, start: string, end: string, units: string, ndfd: string): string
  {
    Replace(Replace(Replace(Replace(Replace(Replace(BaseUrl,
      "LATITUDE", lat), "LONGITUDE", lon), "START_DATE", start), "END_DATE", end), "UNITS", units), "NDFD", ndfd)
  }

  /** `create_ndfd_url(lat, lon, ndfd, units, start_date, end_date)` for
      string coordinates (`str()` of a string is the string itself). */
  function CreateNdfdUrl(lat: string, lon: string, ndfd: seq<string>, units: string,
                         startDate: DateArg, endDate: DateArg): (r: Option<string>)
    ensures r.None? <==> startDate == Parts([]) || endDate == Parts([])
  {
    if DateText(startDate).None? || DateText(endDate).None? then None
    else Some(Substitute(lat, lon, DateText(startDate).value, DateText(endDate).value, units, NdfdText(ndfd)))
  }

  /** `create_ndfd_url(lat, lon, ndfd = ndfd, units = units)`, the call
      `ndfd_to_instapost` makes. */
  function RequestUrl(lat: string, lon: string, ndfd: seq<string>, units: string): string
  {
    Substitute(lat, lon, "", "", units, NdfdText(ndfd))
  }

  // ---------------------------------------------------------------------
  // Where a `replace` can match
  // ---------------------------------------------------------------------

  /** The first letters of the six placeholder names. */
  predicate KeyLetter(c: char)
  {
    c == 'L' || c == 'S' || c == 'E' || c == 'U' || c == 'N'
  }

  /** A value holding no first letter of a placeholder name, so no later
      `replace` in the chain can match inside it. */
  predicate Inert(v: string)
  {
    'L' !in v && 'S' !in v && 'E' !in v && 'U' !in v && 'N' !in v
  }

  /** No occurrence of `pat` can begin in `x`, whatever follows: the first
      letter of `pat` is absent, or only at the head and followed by a
      different second letter. */
  predicate Clear(x: string, pat: string)
    requires |pat| >= 2
  {
    pat[0] !in x || (|x| >= 2 && x[0] == pat[0] && x[1] != pat[1] && pat[0] !in x[1..])
  }

  /** No occurrence of `pat` can begin in `x` when `next` follows it: `x` is
      clear of `pat`, or the first letter of `pat` is only at its end and
      `next` does not continue the match. */
  predicate Passes(x: string, next: string, pat: string)
    requires |pat| >= 2
  {
    Clear(x, pat) || (|x| >= 1 && pat[0] !in x[..|x| - 1] && next != [] && next[0] != pat[1])
  }

  /** The whole string is one occurrence of `pat`. */
  lemma ReplaceWhole(pat: string, rep: string)
    requires pat != []
    ensures Replace(pat, pat, rep) == rep
  {
    assert pat[..|pat|] == pat && pat[|pat|..] == "";
  }

  /** A piece that passes is copied unchanged by `replace`. */
  lemma ReplacePasses(x: string, next: string, rest: string, pat: string, rep: string)
    requires |pat| >= 2 && Passes(x, next, pat)
    ensures Replace(x + (next + rest), pat, rep) == x + Replace(next + rest, pat, rep)
  {
    var y := next + rest;
    if pat[0] !in x {
      ReplaceSkip(x, y, pat, rep);
    } else if Clear(x, pat) {
      ReplaceSkipLeading(x, y, pat, rep);
    } else {
      ReplacePassesLast(x, next, rest, pat, rep);
    }
  }

  /** The case of `Passes` where the first letter of `pat` ends `x`. */
  lemma ReplacePassesLast(x: string, next: string, rest: string, pat: string, rep: string)
    requires |pat| >= 2 && |x| >= 1 && pat[0] !in x[..|x| - 1] && next != [] && next[0] != pat[1]
    ensures Replace(x + (next + rest), pat, rep) == x + Replace(next + rest, pat, rep)
  {
    var y := next + rest;
    var init := x[..|x| - 1];
    var c := x[|x| - 1];
    assert y[0] == next[0];
    ReplaceSkipChar(c, y, pat, rep);
    ReplaceSkip(init, [c] + y, pat, rep);
    assert init + ([c] + y) == x + y;
    assert init + [c] == x;
  }

  /** The well-formedness of the template text: nothing in it begins a
      placeholder name, except for the `L` that ends `ndfdXML` and the `U`
      of `Unit`, each followed by a lower-case letter. */
  predicate GoodFrame(fr: Frame)
  {
    Inert(fr.stem) && |fr.latKey| >= 2 && Inert(fr.latKey[1..]) && Inert(fr.lonKey)
    && Inert(fr.beginKey) && Inert(fr.endKey) && Inert(fr.unitGap)
    && |fr.unitKey| >= 2 && Inert(fr.unitKey[1..]) && Inert(fr.ndfdKey)
  }

  /** `pat` does not continue at the text that follows the `L` or the `U`. */
  predicate LeadsDiffer(fr: Frame, pat: string)
    requires GoodFrame(fr) && |pat| >= 2
  {
    (fr.latKey[0] == pat[0] ==> fr.latKey[1] != pat[1])
    && (fr.unitKey[0] == pat[0] ==> fr.unitKey[1] != pat[1])
  }

  lemma InertClear(x: string, pat: string)
    requires |pat| >= 2 && KeyLetter(pat[0]) && Inert(x)
    ensures Clear(x, pat)
  {
  }

  /** A piece whose tail is inert is clear of `pat` unless `pat` continues
      at its second letter. */
  lemma TailClear(x: string, pat: string)
    requires |pat| >= 2 && KeyLetter(pat[0]) && |x| >= 2 && Inert(x[1..])
    requires x[0] == pat[0] ==> x[1] != pat[1]
    ensures Clear(x, pat)
  {
    if x[0] != pat[0] {
      forall i | 0 <= i < |x| ensures x[i] != pat[0] {
        if i > 0 { assert x[i] == x[1..][i - 1]; }
      }
    }
  }

  /** Every piece of a good frame is clear of a placeholder name. */
  lemma FramePasses(fr: Frame, pat: string)
    requires GoodFrame(fr) && |pat| >= 2 && KeyLetter(pat[0]) && LeadsDiffer(fr, pat)
    ensures Clear(fr.stem, pat) && Clear(fr.latKey, pat) && Clear(fr.lonKey, pat)
    ensures Clear(fr.beginKey, pat) && Clear(fr.endKey, pat) && Clear(fr.unitGap, pat)
    ensures Clear(fr.unitKey, pat) && Clear(fr.ndfdKey, pat)
  {
    TailClear(fr.latKey, pat);
    TailClear(fr.unitKey, pat);
  }

  /** `replace(v.lat, rep)` on the template with fields `v`: only the
      `lat` field starts a match. */
  lemma ReplaceLatSlot(fr: Frame, v: Fields, rep: string)
    requires GoodFrame(fr) && |v.lat| >= 2 && KeyLetter(v.lat[0]) && LeadsDiffer(fr, v.lat)
    requires Passes(v.lon, fr.beginKey, v.lat)
    requires Passes(v.start, fr.endKey, v.lat)
    requires Passes(v.end, fr.unitGap, v.lat)
    requires Passes(v.units, fr.ndfdKey, v.lat)
    requires v.lat[0] !in v.ndfd
    ensures Replace(Render(fr, v), v.lat, rep) == Render(fr, v.(lat := rep))
  {
    FramePasses(fr, v.lat);
    var t13 := v.ndfd;
    var t12 := fr.ndfdKey + t13;
    var t11 := v.units + t12;
    var t10 := fr.unitKey + t11;
    var t9 := fr.unitGap + t10;
    var t8 := v.end + t9;
    var t7 := fr.endKey + t8;
    var t6 := v.start + t7;
    var t5 := fr.beginKey + t6;
    var t4 := v.lon + t5;
    var t3 := fr.lonKey + t4;
    var t2 := v.lat + t3;
    var t1 := fr.latKey + t2;
    ReplacePasses(fr.stem, fr.latKey, t2, v.lat, rep);
    ReplacePasses(fr.latKey, v.lat, t3, v.lat, rep);
    ReplaceHead(t3, v.lat, rep);
    ReplacePasses(fr.lonKey, v.lon, t5, v.lat, rep);
    ReplacePasses(v.lon, fr.beginKey, t6, v.lat, rep);
    ReplacePasses(fr.beginKey, v.start, t7, v.lat, rep);
    ReplacePasses(v.start, fr.endKey, t8, v.lat, rep);
    ReplacePasses(fr.endKey, v.end, t9, v.lat, rep);
    ReplacePasses(v.end, fr.unitGap, t10, v.lat, rep);
    ReplacePasses(fr.unitGap, fr.unitKey, t11, v.lat, rep);
    ReplacePasses(fr.unitKey, v.units, t12, v.lat, rep);
    ReplacePasses(v.units, fr.ndfdKey, t13, v.lat, rep);
    ReplacePasses(fr.ndfdKey, t13, "", v.lat, rep);
    assert t13 + "" == t13;
    ReplaceNone(v.ndfd, v.lat, rep);
  }

  /** `replace(v.lon, rep)` on the template with fields `v`: only the
      `lon` field starts a match. */
  lemma ReplaceLonSlot(fr: Frame, v: Fields, rep: string)
    requires GoodFrame(fr) && |v.lon| >= 2 && KeyLetter(v.lon[0]) && LeadsDiffer(fr, v.lon)
    requires Passes(v.lat, fr.lonKey, v.lon)
    requires Passes(v.start, fr.endKey, v.lon)
    requires Passes(v.end, fr.unitGap, v.lon)
    requires Passes(v.units, fr.ndfdKey, v.lon)
    requires v.lon[0] !in v.ndfd
    ensures Replace(Render(fr, v), v.lon, rep) == Render(fr, v.(lon := rep))
  {
    FramePasses(fr, v.lon);
    var t13 := v.ndfd;
    var t12 := fr.ndfdKey + t13;
    var t11 := v.units + t12;
    var t10 := fr.unitKey + t11;
    var t9 := fr.unitGap + t10;
    var t8 := v.end + t9;
    var t7 := fr.endKey + t8;
    var t6 := v.start + t7;
    var t5 := fr.beginKey + t6;
    var t4 := v.lon + t5;
    var t3 := fr.lonKey + t4;
    var t2 := v.lat + t3;
    var t1 := fr.latKey + t2;
    ReplacePasses(fr.stem, fr.latKey, t2, v.lon, rep);
    ReplacePasses(fr.latKey, v.lat, t3, v.lon, rep);
    ReplacePasses(v.lat, fr.lonKey, t4, v.lon, rep);
    ReplacePasses(fr.lonKey, v.lon, t5, v.lon, rep);
    ReplaceHead(t5, v.lon, rep);
    ReplacePasses(fr.beginKey, v.start, t7, v.lon, rep);
    ReplacePasses(v.start, fr.endKey, t8, v.lon, rep);
    ReplacePasses(fr.endKey, v.end, t9, v.lon, rep);
    ReplacePasses(v.end, fr.unitGap, t10, v.lon, rep);
    ReplacePasses(fr.unitGap, fr.unitKey, t11, v.lon, rep);
    ReplacePasses(fr.unitKey, v.units, t12, v.lon, rep);
    ReplacePasses(v.units, fr.ndfdKey, t13, v.lon, rep);
    ReplacePasses(fr.ndfdKey, t13, "", v.lon, rep);
    assert t13 + "" == t13;
    ReplaceNone(v.ndfd, v.lon, rep);
  }

  /** `replace(v.start, rep)` on the template with fields `v`: only the
      `start` field starts a match. */
  lemma ReplaceStartSlot(fr: Frame, v: Fields, rep: string)
    requires GoodFrame(fr) && |v.start| >= 2 && KeyLetter(v.start[0]) && LeadsDiffer(fr, v.start)
    requires Passes(v.lat, fr.lonKey, v.start)
    requires Passes(v.lon, fr.beginKey, v.start)
    requires Passes(v.end, fr.unitGap, v.start)
    requires Passes(v.units, fr.ndfdKey, v.start)
    requires v.start[0] !in v.ndfd
    ensures Replace(Render(fr, v), v.start, rep) == Render(fr, v.(start := rep))
  {
    FramePasses(fr, v.start);
    var t13 := v.ndfd;
    var t12 := fr.ndfdKey + t13;
    var t11 := v.units + t12;
    var t10 := fr.unitKey + t11;
    var t9 := fr.unitGap + t10;
    var t8 := v.end + t9;
    var t7 := fr.endKey + t8;
    var t6 := v.start + t7;
    var t5 := fr.beginKey + t6;
    var t4 := v.lon + t5;
    var t3 := fr.lonKey + t4;
    var t2 := v.lat + t3;
    var t1 := fr.latKey + t2;
    ReplacePasses(fr.stem, fr.latKey, t2, v.start, rep);
    ReplacePasses(fr.latKey, v.lat, t3, v.start, rep);
    ReplacePasses(v.lat, fr.lonKey, t4, v.start, rep);
    ReplacePasses(fr.lonKey, v.lon, t5, v.start, rep);
    ReplacePasses(v.lon, fr.beginKey, t6, v.start, rep);
    ReplacePasses(fr.beginKey, v.start, t7, v.start, rep);
    ReplaceHead(t7, v.start, rep);
    ReplacePasses(fr.endKey, v.end, t9, v.start, rep);
    ReplacePasses(v.end, fr.unitGap, t10, v.start, rep);
    ReplacePasses(fr.unitGap, fr.unitKey, t11, v.start, rep);
    ReplacePasses(fr.unitKey, v.units, t12, v.start, rep);
    ReplacePasses(v.units, fr.ndfdKey, t13, v.start, rep);
    ReplacePasses(fr.ndfdKey, t13, "", v.start, rep);
    assert t13 + "" == t13;
    ReplaceNone(v.ndfd, v.start, rep);
  }

  /** `replace(v.end, rep)` on the template with fields `v`: only the
      `end` field starts a match. */
  lemma ReplaceEndSlot(fr: Frame, v: Fields, rep: string)
    requires GoodFrame(fr) && |v.end| >= 2 && KeyLetter(v.end[0]) && LeadsDiffer(fr, v.end)
    requires Passes(v.lat, fr.lonKey, v.end)
    requires Passes(v.lon, fr.beginKey, v.end)
    requires Passes(v.start, fr.endKey, v.end)
    requires Passes(v.units, fr.ndfdKey, v.end)
    requires v.end[0] !in v.ndfd
    ensures Replace(Render(fr, v), v.end, rep) == Render(fr, v.(end := rep))
  {
    FramePasses(fr, v.end);
    var t13 := v.ndfd;
    var t12 := fr.ndfdKey + t13;
    var t11 := v.units + t12;
    var t10 := fr.unitKey + t11;
    var t9 := fr.unitGap + t10;
    var t8 := v.end + t9;
    var t7 := fr.endKey + t8;
    var t6 := v.start + t7;
    var t5 := fr.beginKey + t6;
    var t4 := v.lon + t5;
    var t3 := fr.lonKey + t4;
    var t2 := v.lat + t3;
    var t1 := fr.latKey + t2;
    ReplacePasses(fr.stem, fr.latKey, t2, v.end, rep);
    ReplacePasses(fr.latKey, v.lat, t3, v.end, rep);
    ReplacePasses(v.lat, fr.lonKey, t4, v.end, rep);
    ReplacePasses(fr.lonKey, v.lon, t5, v.end, rep);
    ReplacePasses(v.lon, fr.beginKey, t6, v.end, rep);
    ReplacePasses(fr.beginKey, v.start, t7, v.end, rep);
    ReplacePasses(v.start, fr.endKey, t8, v.end, rep);
    ReplacePasses(fr.endKey, v.end, t9, v.end, rep);
    ReplaceHead(t9, v.end, rep);
    ReplacePasses(fr.unitGap, fr.unitKey, t11, v.end, rep);
    ReplacePasses(fr.unitKey, v.units, t12, v.end, rep);
    ReplacePasses(v.units, fr.ndfdKey, t13, v.end, rep);
    ReplacePasses(fr.ndfdKey, t13, "", v.end, rep);
    assert t13 + "" == t13;
    ReplaceNone(v.ndfd, v.end, rep);
  }

  /** `replace(v.units, rep)` on the template with fields `v`: only the
      `units` field starts a match. */
  lemma ReplaceUnitsSlot(fr: Frame, v: Fields, rep: string)
    requires GoodFrame(fr) && |v.units| >= 2 && KeyLetter(v.units[0]) && LeadsDiffer(fr, v.units)
    requires Passes(v.lat, fr.lonKey, v.units)
    requires Passes(v.lon, fr.beginKey, v.units)
    requires Passes(v.start, fr.endKey, v.units)
    requires Passes(v.end, fr.unitGap, v.units)
    requires v.units[0] !in v.ndfd
    ensures Replace(Render(fr, v), v.units, rep) == Render(fr, v.(units := rep))
  {
    FramePasses(fr, v.units);
    var t13 := v.ndfd;
    var t12 := fr.ndfdKey + t13;
    var t11 := v.units + t12;
    var t10 := fr.unitKey + t11;
    var t9 := fr.unitGap + t10;
    var t8 := v.end + t9;
    var t7 := fr.endKey + t8;
    var t6 := v.start + t7;
    var t5 := fr.beginKey + t6;
    var t4 := v.lon + t5;
    var t3 := fr.lonKey + t4;
    var t2 := v.lat + t3;
    var t1 := fr.latKey + t2;
    ReplacePasses(fr.stem, fr.latKey, t2, v.units, rep);
    ReplacePasses(fr.latKey, v.lat, t3, v.units, rep);
    ReplacePasses(v.lat, fr.lonKey, t4, v.units, rep);
    ReplacePasses(fr.lonKey, v.lon, t5, v.units, rep);
    ReplacePasses(v.lon, fr.beginKey, t6, v.units, rep);
    ReplacePasses(fr.beginKey, v.start, t7, v.units, rep);
    ReplacePasses(v.start, fr.endKey, t8, v.units, rep);
    ReplacePasses(fr.endKey, v.end, t9, v.units, rep);
    ReplacePasses(v.end, fr.unitGap, t10, v.units, rep);
    ReplacePasses(fr.unitGap, fr.unitKey, t11, v.units, rep);
    ReplacePasses(fr.unitKey, v.units, t12, v.units, rep);
    ReplaceHead(t12, v.units, rep);
    ReplacePasses(fr.ndfdKey, t13, "", v.units, rep);
    assert t13 + "" == t13;
    ReplaceNone(v.ndfd, v.units, rep);
  }

  /** `replace(v.ndfd, rep)` on the template with fields `v`: only the
      `ndfd` field starts a match. */
  lemma ReplaceNdfdSlot(fr: Frame, v: Fields, rep: string)
    requires GoodFrame(fr) && |v.ndfd| >= 2 && KeyLetter(v.ndfd[0]) && LeadsDiffer(fr, v.ndfd)
    requires Passes(v.lat, fr.lonKey, v.ndfd)
    requires Passes(v.lon, fr.beginKey, v.ndfd)
    requires Passes(v.start, fr.endKey, v.ndfd)
    requires Passes(v.end, fr.unitGap, v.ndfd)
    requires Passes(v.units, fr.ndfdKey, v.ndfd)
    ensures Replace(Render(fr, v), v.ndfd, rep) == Render(fr, v.(ndfd := rep))
  {
    FramePasses(fr, v.ndfd);
    var t13 := v.ndfd;
    var t12 := fr.ndfdKey + t13;
    var t11 := v.units + t12;
    var t10 := fr.unitKey + t11;
    var t9 := fr.unitGap + t10;
    var t8 := v.end + t9;
    var t7 := fr.endKey + t8;
    var t6 := v.start + t7;
    var t5 := fr.beginKey + t6;
    var t4 := v.lon + t5;
    var t3 := fr.lonKey + t4;
    var t2 := v.lat + t3;
    var t1 := fr.latKey + t2;
    ReplacePasses(fr.stem, fr.latKey, t2, v.ndfd, rep);
    ReplacePasses(fr.latKey, v.lat, t3, v.ndfd, rep);
    ReplacePasses(v.lat, fr.lonKey, t4, v.ndfd, rep);
    ReplacePasses(fr.lonKey, v.lon, t5, v.ndfd, rep);
    ReplacePasses(v.lon, fr.beginKey, t6, v.ndfd, rep);
    ReplacePasses(fr.beginKey, v.start, t7, v.ndfd, rep);
    ReplacePasses(v.start, fr.endKey, t8, v.ndfd, rep);
    ReplacePasses(fr.endKey, v.end, t9, v.ndfd, rep);
    ReplacePasses(v.end, fr.unitGap, t10, v.ndfd, rep);
    ReplacePasses(fr.unitGap, fr.unitKey, t11, v.ndfd, rep);
    ReplacePasses(fr.unitKey, v.units, t12, v.ndfd, rep);
    ReplacePasses(v.units, fr.ndfdKey, t13, v.ndfd, rep);
    ReplacePasses(fr.ndfdKey, t13, "", v.ndfd, rep);
    assert t13 + "" == t13;
    ReplaceWhole(v.ndfd, rep);
  }

  // ---------------------------------------------------------------------
  // The facts about the literal text
  // ---------------------------------------------------------------------

  predicate NoUpper(x: string)
  {
    forall i | 0 <= i < |x| :: !('A' <= x[i] <= 'Z')
  }

  lemma NoUpperInert(x: string)
    requires NoUpper(x)
    ensures Inert(x)
  {
    assert forall i | 0 <= i < |x| :: x[i] != 'L' && x[i] != 'S' && x[i] != 'E' && x[i] != 'U' && x[i] != 'N';
  }

  lemma InertCat(x: string, y: string)
    requires Inert(x) && Inert(y)
    ensures Inert(x + y)
  {
    assert forall i | 0 <= i < |x + y| :: (x + y)[i] == if i < |x| then x[i] else y[i - |x|];
  }

  lemma HostInert()
    ensures Inert(Host)
  {
    NoUpperInert(Host);
  }

  lemma PathInert()
    ensures Inert(Service) && Inert(Interface)
  {
    NoUpperInert(Service);
    NoUpperInert(Interface);
  }

  lemma InertCat4(a: string, b: string, c: string, d: string)
    requires Inert(a) && Inert(b) && Inert(c) && Inert(d)
    ensures Inert(a + b + c + d)
  {
    InertCat(a, b);
    InertCat(a + b, c);
    InertCat(a + b + c, d);
  }

  lemma StemInert()
    ensures Inert(Host + Service + Interface + "XM")
  {
    HostInert();
    PathInert();
    InertCat4(Host, Service, Interface, "XM");
  }

  lemma KeysInert()
    ensures Inert(LatKey[1..]) && Inert(BeginKey) && Inert(UnitKey[1..])
    ensures LatKey[..2] == "Lc" && UnitKey[..2] == "Un"
  {
    assert LatKey[1..] == "client.php?lat=";
    NoUpperInert("client.php?lat=");
    NoUpperInert("&product=time-series");
    NoUpperInert("&begin=");
    InertCat("&product=time-series", "&begin=");
    assert UnitKey[1..] == "nit=";
  }

  lemma GapsInert()
    ensures Inert(EndKey) && Inert(UnitGap) && Inert("&lon=") && Inert("&")
  {
    assert EndKey == "T" + "00:00:00&end=";
    NoUpperInert("00:00:00&end=");
    assert UnitGap == "T" + "00:00:00&";
    NoUpperInert("00:00:00&");
  }

  /** `BASE_URL` is a good frame, and no placeholder name continues after
      its `L` or its `U`. */
  lemma UrlFrameGood(pat: string)
    requires pat in {"LATITUDE", "LONGITUDE", "START_DATE", "END_DATE", "UNITS", "NDFD"}
    ensures GoodFrame(UrlFrame) && LeadsDiffer(UrlFrame, pat)
  {
    StemInert();
    KeysInert();
    GapsInert();
  }

  /** The placeholders still in the template when each `replace` runs are
      passed over by it. */
  lemma PlaceholdersPass()
    ensures Clear("LONGITUDE", "LATITUDE") && Clear("START_DATE", "LATITUDE")
    ensures Clear("END_DATE", "LATITUDE") && Clear("UNITS", "LATITUDE") && 'L' !in "NDFD"
    ensures Clear("START_DATE", "LONGITUDE") && Clear("END_DATE", "LONGITUDE")
    ensures Clear("UNITS", "LONGITUDE")
    ensures Clear("END_DATE", "START_DATE") && Passes("UNITS", "&", "START_DATE") && 'S' !in "NDFD"
    ensures Clear("UNITS", "END_DATE") && 'E' !in "NDFD"
    ensures 'U' !in "NDFD"
  {
    assert "LONGITUDE"[1..] == "ONGITUDE";
    assert "UNITS"[..4] == "UNIT";
  }

  /** With values free of placeholder letters, the `replace` chain yields the
      template with the values in its fields. The element text is put in by
      the last `replace`, so it may hold any letters. */
  lemma SubstituteFills(lat: string, lon: string, start: string, end: string, units: string, ndfd: string)
    requires Inert(lat) && Inert(lon) && Inert(start) && Inert(end) && Inert(units)
    ensures Substitute(lat, lon, start, end, units, ndfd) == Filled(lat, lon, start, end, units, ndfd)
  {
    var v0 := Placeholders;
    PlaceholdersPass();
    UrlFrameGood("LATITUDE");
    ReplaceLatSlot(UrlFrame, v0, lat);
    var v1 := v0.(lat := lat);
    UrlFrameGood("LONGITUDE");
    InertClear(lat, "LONGITUDE");
    ReplaceLonSlot(UrlFrame, v1, lon);
    var v2 := v1.(lon := lon);
    UrlFrameGood("START_DATE");
    InertClear(lat, "START_DATE");
    InertClear(lon, "START_DATE");
    ReplaceStartSlot(UrlFrame, v2, start);
    var v3 := v2.(start := start);
    UrlFrameGood("END_DATE");
    InertClear(lat, "END_DATE");
    InertClear(lon, "END_DATE");
    InertClear(start, "END_DATE");
    ReplaceEndSlot(UrlFrame, v3, end);
    var v4 := v3.(end := end);
    UrlFrameGood("UNITS");
    InertClear(lat, "UNITS");
    InertClear(lon, "UNITS");
    InertClear(start, "UNITS");
    InertClear(end, "UNITS");
    ReplaceUnitsSlot(UrlFrame, v4, units);
    var v5 := v4.(units := units);
    UrlFrameGood("NDFD");
    InertClear(lat, "NDFD");
    InertClear(lon, "NDFD");
    InertClear(start, "NDFD");
    InertClear(end, "NDFD");
    InertClear(units, "NDFD");
    ReplaceNdfdSlot(UrlFrame, v5, ndfd);
  }

  // ---------------------------------------------------------------------
  // What `create_ndfd_url` yields
  // ---------------------------------------------------------------------

  lemma {:induction false} JoinInert(sep: string, parts: seq<string>)
    requires Inert(sep) && forall i | 0 <= i < |parts| :: Inert(parts[i])
    ensures Inert(Join(sep, parts))
    decreases |parts|
  {
    if |parts| > 1 {
      var init := parts[..|parts| - 1];
      JoinInert(sep, init);
      InertCat(Join(sep, init), sep);
      InertCat(Join(sep, init) + sep, parts[|parts| - 1]);
    }
  }

  /** NDFD element names free of placeholder letters give an inert `ndfd`
      text. */
  lemma NdfdTextInert(ndfd: seq<string>)
    requires forall i | 0 <= i < |ndfd| :: Inert(ndfd[i])
    ensures Inert(NdfdText(ndfd))
  {
    if AnyRequested(ndfd) {
      forall i | 0 <= i < |ndfd| ensures Inert(Pairs(ndfd)[i]) {
        InertCat(ndfd[i], "=");
        InertCat(ndfd[i] + "=", ndfd[i]);
      }
      JoinInert("&", Pairs(ndfd));
    }
  }

  /** The `ndfd` text splits at `&` into one `x=x` pair per requested
      element, empty elements included, when no element holds `&`. */
  lemma NdfdTextPairs(ndfd: seq<string>)
    requires AnyRequested(ndfd) && forall i | 0 <= i < |ndfd| :: '&' !in ndfd[i]
    ensures Split(NdfdText(ndfd), '&') == Pairs(ndfd)
  {
    var pairs := Pairs(ndfd);
    forall i | 0 <= i < |pairs| ensures '&' !in pairs[i] {
      var x := ndfd[i];
      assert forall j | 0 <= j < |pairs[i]| :: pairs[i][j] == if j < |x| then x[j] else if j == |x| then '=' else x[j - |x| - 1];
    }
    SplitJoin(pairs, '&');
  }

  /** A date given as numbers is written `str(y)-str(m)-str(d)`: each number
      without padding (no leading zero), readable back by splitting at `-`,
      and inert in the URL. */
  lemma NumberDate(ps: seq<DatePart>)
    requires |ps| >= 1 && forall i | 0 <= i < |ps| :: ps[i].Number? && ps[i].n >= 0
    ensures DateText(Parts(ps)).Some?
    ensures |Split(DateText(Parts(ps)).value, '-')| == |ps|
    ensures forall i | 0 <= i < |ps| :: Split(DateText(Parts(ps)).value, '-')[i] == NatToString(ps[i].n)
    ensures Inert(DateText(Parts(ps)).value)
  {
    var strs := PartStrings(ps);
    forall i | 0 <= i < |ps| ensures '-' !in strs[i] && Inert(strs[i]) && strs[i] == NatToString(ps[i].n) {
      assert AllDigits(strs[i]);
      assert NoUpper(strs[i]);
      NoUpperInert(strs[i]);
    }
    SplitJoin(strs, '-');
    JoinInert("-", strs);
  }

  /** A non-empty date string is iterated by character: its characters come
      out separated by `-`. */
  lemma TextDate(s: string)
    requires s != [] && '-' !in s
    ensures DateText(Text(s)).Some? && Split(DateText(Text(s)).value, '-') == Chars(s)
  {
    SplitJoin(Chars(s), '-');
  }

  /** A date argument that is accepted and free of placeholder letters. */
  predicate DateReady(d: DateArg)
  {
    DateText(d).Some? && Inert(DateText(d).value)
  }

  /** With inert coordinates, units and dates, the URL is the template with
      each field in place, whatever the element names. */
  lemma CreateNdfdUrlFills(lat: string, lon: string, ndfd: seq<string>, units: string,
                           startDate: DateArg, endDate: DateArg)
    requires Inert(lat) && Inert(lon) && Inert(units)
    requires DateReady(startDate) && DateReady(endDate)
    ensures CreateNdfdUrl(lat, lon, ndfd, units, startDate, endDate)
         == Some(Filled(lat, lon, DateText(startDate).value, DateText(endDate).value, units, NdfdText(ndfd)))
  {
    SubstituteFills(lat, lon, DateText(startDate).value, DateText(endDate).value, units, NdfdText(ndfd));
  }

  /** The default dates leave `begin` and `end` empty. */
  lemma RequestUrlFills(lat: string, lon: string, ndfd: seq<string>, units: string)
    requires Inert(lat) && Inert(lon) && Inert(units)
    ensures CreateNdfdUrl(lat, lon, ndfd, units, Text(""), Text("")) == Some(RequestUrl(lat, lon, ndfd, units))
    ensures RequestUrl(lat, lon, ndfd, units) == Filled(lat, lon, "", "", units, NdfdText(ndfd))
  {
    SubstituteFills(lat, lon, "", "", units, NdfdText(ndfd));
  }
}
