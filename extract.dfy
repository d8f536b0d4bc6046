/** The body of `get_ndfd_web_data` after the fetch, in both NDFD scripts
    (noaa_forecast/get_noaa_forecast.py:156-228 and
    noaa_forecast/get_forecast.py:151-206). It starts from the normalised
    `dwml.data` value and builds `result_dict`: layout key to time stamps and
    parameter series.

    An exception that escapes the function is `None`: the whole site is
    lost. Exceptions the code catches are followed as written. The two
    scripts differ in where leaves sit (collapsed strings under Python 2,
    `{"#text": v}` under Python 3), in the time stamps (converted to UTC
    under Python 2, truncated under Python 3) and in the unit rewrite (Python 2
    only); `Script` selects the variant. `float()` on a string is the
    parameter `num`. */
module Extract {

  import opened Wrappers
  import opened Text
  import opened Dicts
  import opened Dom

  /** The script variant. The Python 2 script's conversion of a time stamp
      to UTC is carried as a value, so the loops here are proved for any
      conversion; `Instapost.Python2` fixes it to `Timestamps.ConvertStamp`. */
  datatype Script = Py2(utc: string -> Option<string>) | Py3

  /** The outcome of a subscript `v[k]`: the value, `KeyError` on a dict
      without `k`, or `TypeError` on a string or a list. */
  datatype Got = Found(v: Value) | NoKey | BadType

  function Index(v: Value, k: string): (r: Got)
    ensures r.Found? <==> v.Obj? && HasKey(v.entries, k)
    ensures r.NoKey? <==> v.Obj? && !HasKey(v.entries, k)
    ensures r.Found? ==> Get(v.entries, k) == Some(r.v)
  {
    if !v.Obj? then BadType
    else if Get(v.entries, k).None? then NoKey
    else Found(Get(v.entries, k).value)
  }

  /** `v[k]` when it is a string, the only kind of value usable as a key of
      `result_dict` (a dict or a list is unhashable). */
  function StrAt(v: Value, k: string): Option<string>
  {
    if Index(v, k).Found? && Index(v, k).v.Str? then Some(Index(v, k).v.s) else None
  }

  /** A parameter's values: floats when every entry converted, otherwise the
      entries as they were read. */
  datatype Numbers = Reals(rs: seq<real>) | Raw(xs: seq<Value>)

  /** `{'values': values, 'units': units}`. */
  datatype Series = Series(values: Numbers, units: Value)

  /** `result_dict[key]`: `{'time_stamps': ...}`, with `'parameters'` once a
      series has been stored under it. */
  datatype Layout = Layout(stamps: seq<Value>, params: Option<seq<(string, Series)>>)

  type Result = seq<(string, Layout)>

  // ---------------------------------------------------------------------
  // Time layouts
  // ---------------------------------------------------------------------

  /** The layout key: `time['layout-key']` (Python 2) or
      `time['layout-key']['#text']` (Python 3). */
  function LayoutKey(script: Script, time: Value): Option<string>
  {
    if script.Py2? then StrAt(time, "layout-key")
    else if Index(time, "layout-key").Found? then StrAt(Index(time, "layout-key").v, "#text")
    else None
  }

  /** `v[:19]` of the first value of a Python 3 time entry: a string or a
      list can be sliced, a dict cannot. */
  function Truncated(v: Value): Option<Value>
  {
    if v.Str? then Some(Str(Take(v.s, 19)))
    else if v.List? then Some(List(Take(v.items, 19)))
    else None
  }

  /** One time stamp. Python 2 converts the string to UTC; Python 3 takes
      `list(x.values())[0][:19]`. */
  function Stamp(script: Script, t: Value): Option<Value>
  {
    if script.Py2? then
      if t.Str? && script.utc(t.s).Some? then Some(Str(script.utc(t.s).value)) else None
    else if t.Obj? && t.entries != [] then Truncated(t.entries[0].1)
    else None
  }

  /** The time stamps of one layout: every entry converted, in order, or an
      exception if any entry fails. */
  function Stamps(script: Script, tl: seq<Value>): (r: Option<seq<Value>>)
    ensures r.Some? <==> forall i | 0 <= i < |tl| :: Stamp(script, tl[i]).Some?
    ensures r.Some? ==> |r.value| == |tl| && forall i | 0 <= i < |tl| :: Stamp(script, tl[i]) == Some(r.value[i])
  {
    if tl == [] then Some([])
    else if Stamp(script, tl[0]).None? || Stamps(script, tl[1..]).None? then None
    else
      assert forall i | 1 <= i < |tl| :: tl[i] == tl[1..][i - 1];
      Some([Stamp(script, tl[0]).value] + Stamps(script, tl[1..]).value)
  }

  /** The Python 2 loop that appends each converted time stamp. */
  method ConvertTimes(script: Script, timeList: seq<Value>) returns (r: Option<seq<Value>>)
    requires script.Py2?
    ensures r == Stamps(script, timeList)
  {
    var stamps: seq<Value> := [];
    var i := 0;
    while i < |timeList|
      invariant 0 <= i <= |timeList|
      invariant |stamps| == i && forall j | 0 <= j < i :: Stamp(script, timeList[j]) == Some(stamps[j])
    {
      var s := Stamp(script, timeList[i]);
      if s.None? {
        return None;
      }
      stamps := stamps + [s.value];
      i := i + 1;
    }
    assert stamps == Stamps(script, timeList).value;
    return Some(stamps);
  }

  /** The time stamps of a layout entry, `start-valid-time` as a list. */
  function EntryStamps(script: Script, time: Value): Option<seq<Value>>
  {
    if Index(time, "start-valid-time").Found? then Stamps(script, AsList(Index(time, "start-valid-time").v))
    else None
  }

  /** `result_dict.update({key: {'time_stamps': time_stamps}})` for one
      layout entry. */
  function AddLayout(script: Script, acc: Result, time: Value): Option<Result>
  {
    if LayoutKey(script, time).None? || EntryStamps(script, time).None? then None
    else Some(Put(acc, LayoutKey(script, time).value, Layout(EntryStamps(script, time).value, None)))
  }

  /** The loop over the layout entries. */
  function Layouts(script: Script, acc: Result, times: seq<Value>): Option<Result>
    decreases |times|
  {
    if times == [] then Some(acc)
    else if AddLayout(script, acc, times[0]).None? then None
    else Layouts(script, AddLayout(script, acc, times[0]).value, times[1..])
  }

  method ReadLayouts(script: Script, times: seq<Value>) returns (r: Option<Result>)
    ensures r == Layouts(script, [], times)
  {
    var result: Result := [];
    var i := 0;
    while i < |times|
      invariant 0 <= i <= |times|
      invariant Layouts(script, result, times[i..]) == Layouts(script, [], times)
    {
      LayoutsStep(script, result, times, i);
      var time := times[i];
      var key := LayoutKey(script, time);
      var stamps := ReadStamps(script, time);
      if key.None? || stamps.None? {
        return None;
      }
      result := Put(result, key.value, Layout(stamps.value, None));
      i := i + 1;
    }
    assert times[i..] == [];
    return Some(result);
  }

  /** `time['start-valid-time']`, made a list, and its stamps. */
  method ReadStamps(script: Script, time: Value) returns (stamps: Option<seq<Value>>)
    ensures stamps == EntryStamps(script, time)
  {
    var timeList := Index(time, "start-valid-time");
    if !timeList.Found? {
      return None;
    }
    if script.Py2? {
      stamps := ConvertTimes(script, AsList(timeList.v));
    } else {
      stamps := Stamps(Py3, AsList(timeList.v));
    }
  }

  lemma LayoutsStep(script: Script, acc: Result, times: seq<Value>, i: nat)
    requires i < |times|
    ensures AddLayout(script, acc, times[i]).None? ==> Layouts(script, acc, times[i..]).None?
    ensures AddLayout(script, acc, times[i]).Some? ==>
      Layouts(script, acc, times[i..]) == Layouts(script, AddLayout(script, acc, times[i]).value, times[i + 1..])
  {
    assert times[i..][0] == times[i] && times[i..][1..] == times[i + 1..];
  }

  // ---------------------------------------------------------------------
  // Parameter series
  // ---------------------------------------------------------------------

  /** `try: data['@time-layout'] except KeyError: data = data[first key]`:
      an entry without a layout is replaced by its first child, once. A
      string or a list raises TypeError, a dict without keys IndexError. */
  function Unwrapped(data: Value): Option<Value>
  {
    if !data.Obj? then None
    else if HasKey(data.entries, "@time-layout") then Some(data)
    else if data.entries == [] then None
    else Some(data.entries[0].1)
  }

  /** `[x for x in v]`: the items of a list, the characters of a string, the
      keys of a dict. */
  function Iterated(v: Value): (r: seq<Value>)
    ensures v.List? ==> r == v.items
    ensures v.Str? ==> |r| == |v.s| && forall i | 0 <= i < |v.s| :: r[i] == Str([v.s[i]])
    ensures v.Obj? ==> |r| == |v.entries| && forall i | 0 <= i < |v.entries| :: r[i] == Str(v.entries[i].0)
  {
    match v
    case Str(s) => seq(|s|, i requires 0 <= i < |s| => Str([s[i]]))
    case Obj(es) => seq(|es|, i requires 0 <= i < |es| => Str(es[i].0))
    case List(items) => items
  }

  predicate HasText(x: Value)
  {
    x.Obj? && HasKey(x.entries, "#text")
  }

  /** `[x['#text'] for x in v]`: fails unless every item is a dict holding
      `#text`. */
  function Texts(v: Value): (r: Option<seq<Value>>)
    ensures r.Some? <==> forall i | 0 <= i < |Iterated(v)| :: HasText(Iterated(v)[i])
    ensures r.Some? ==> (|r.value| == |Iterated(v)| &&
      forall i | 0 <= i < |r.value| :: Index(Iterated(v)[i], "#text") == Found(r.value[i]))
  {
    if forall i | 0 <= i < |Iterated(v)| :: HasText(Iterated(v)[i]) then
      Some(seq(|Iterated(v)|, i requires 0 <= i < |Iterated(v)| => Get(Iterated(v)[i].entries, "#text").value))
    else None
  }

  /** The values read in the `try` around the comprehension; `None` is the
      bare `except`, which goes on to the next entry. */
  function ReadValues(script: Script, d: Value): (r: Option<seq<Value>>)
    ensures script.Py2? ==> (r.None? <==> !Index(d, "value").Found?)
    ensures script.Py2? && r.Some? ==> r.value == Iterated(Index(d, "value").v)
    ensures script.Py3? ==> (r.Some? <==> Index(d, "value").Found? && Texts(Index(d, "value").v).Some?)
    ensures script.Py3? && r.Some? ==> r == Texts(Index(d, "value").v)
  {
    if !Index(d, "value").Found? then None
    else if script.Py2? then Some(Iterated(Index(d, "value").v))
    else Texts(Index(d, "value").v)
  }

  /** The Python 3 diagnostics evaluate `data['name']['#text']` and catch
      only KeyError: a name that is a string or a list raises TypeError. */
  predicate NameTrap(d: Value)
  {
    Index(d, "name").Found? && Index(Index(d, "name").v, "#text").BadType?
  }

  predicate Trapped(script: Script, verbose: bool, d: Value)
  {
    script.Py3? && verbose && NameTrap(d)
  }

  /** `float(x)` succeeds on `x`. */
  predicate Convertible(num: string -> Option<real>, x: Value)
  {
    x.Str? && num(x.s).Some?
  }

  /** How `[float(x) for x in values]` ends: with every float, with the
      ValueError of the first string that does not convert, or with the
      TypeError of the first entry that is not a string. */
  datatype Conversion = Floats(rs: seq<real>) | ValueError | TypeError

  function Convert(num: string -> Option<real>, vs: seq<Value>): (r: Conversion)
    ensures r.Floats? <==> forall i | 0 <= i < |vs| :: Convertible(num, vs[i])
    ensures r.Floats? ==> |r.rs| == |vs| && forall i | 0 <= i < |vs| :: num(vs[i].s) == Some(r.rs[i])
    ensures r.TypeError? <==> exists i | 0 <= i < |vs| :: !vs[i].Str? && forall j | 0 <= j < i :: Convertible(num, vs[j])
  {
    if vs == [] then Floats([])
    else
      assert forall i | 1 <= i < |vs| :: vs[i] == vs[1..][i - 1];
      if !vs[0].Str? then TypeError
      else if num(vs[0].s).None? then ValueError
      else
        var rest := Convert(num, vs[1..]);
        if rest.Floats? then Floats([num(vs[0].s).value] + rest.rs)
        else
          ConvertFailure(num, vs, rest);
          rest
  }

  /** How a failure in the tail, behind a first entry that converts, is the
      failure of the whole list. */
  lemma ConvertFailure(num: string -> Option<real>, vs: seq<Value>, rest: Conversion)
    requires vs != [] && Convertible(num, vs[0]) && !rest.Floats?
    requires rest.TypeError? <==> exists i | 0 <= i < |vs[1..]| :: !vs[1..][i].Str? && forall j | 0 <= j < i :: Convertible(num, vs[1..][j])
    ensures rest.TypeError? <==> exists i | 0 <= i < |vs| :: !vs[i].Str? && forall j | 0 <= j < i :: Convertible(num, vs[j])
  {
    if rest.TypeError? {
      var i :| 0 <= i < |vs[1..]| && !vs[1..][i].Str? && forall j | 0 <= j < i :: Convertible(num, vs[1..][j]);
      assert !vs[i + 1].Str?;
      forall j | 0 <= j < i + 1 ensures Convertible(num, vs[j]) {
        if j > 0 { assert vs[j] == vs[1..][j - 1]; }
      }
    }
    if exists i | 0 <= i < |vs| :: !vs[i].Str? && forall j | 0 <= j < i :: Convertible(num, vs[j]) {
      var i :| 0 <= i < |vs| && !vs[i].Str? && forall j | 0 <= j < i :: Convertible(num, vs[j]);
      assert i > 0;
      assert !vs[1..][i - 1].Str?;
      forall j | 0 <= j < i - 1 ensures Convertible(num, vs[1..][j]) {
        assert vs[1..][j] == vs[j + 1];
      }
    }
  }

  /** `try: values = [float(x) for x in values] except ValueError: pass`.
      All or nothing: every entry converts and the list becomes floats, or
      the list is kept as it was; an entry that is not a string aborts. */
  function Coerce(num: string -> Option<real>, vs: seq<Value>): (r: Option<Numbers>)
    ensures (forall i | 0 <= i < |vs| :: Convertible(num, vs[i])) ==>
      r.Some? && r.value.Reals? && |r.value.rs| == |vs| && forall i | 0 <= i < |vs| :: num(vs[i].s) == Some(r.value.rs[i])
    ensures r.Some? && r.value.Raw? ==> r.value.xs == vs && exists i | 0 <= i < |vs| :: !Convertible(num, vs[i])
    ensures r.Some? && !(forall i | 0 <= i < |vs| :: Convertible(num, vs[i])) ==> r == Some(Raw(vs))
    ensures r.None? <==> exists i | 0 <= i < |vs| :: !vs[i].Str? && forall j | 0 <= j < i :: Convertible(num, vs[j])
  {
    match Convert(num, vs)
    case Floats(rs) => Some(Reals(rs))
    case ValueError => Some(Raw(vs))
    case TypeError => None
  }

  /** `data['@units']`, or `''` when it is missing. */
  function UnitsOf(d: Value): Value
  {
    if Index(d, "@units").Found? then Index(d, "@units").v else Str("")
  }

  /** The factor the Python 2 script applies to wind speeds in knots. */
  const KnotsToMph: real := 1.15078

  function Scaled(rs: seq<real>): (r: seq<real>)
    ensures |r| == |rs| && forall i | 0 <= i < |rs| :: r[i] == rs[i] * KnotsToMph
  {
    seq(|rs|, i requires 0 <= i < |rs| => rs[i] * KnotsToMph)
  }

  /** The unit rewrite of the Python 2 script: `knots` become `mph` with
      every value scaled (a value still a string makes the multiplication
      raise TypeError), `Fahrenheit` becomes `F`. Python 3 keeps the units. */
  function Rewrite(script: Script, vals: Numbers, units: Value): (r: Option<Series>)
    ensures script.Py3? ==> r == Some(Series(vals, units))
    ensures script.Py2? && units == Str("knots") && vals.Reals? ==>
      r.Some? && r.value.units == Str("mph") && r.value.values.Reals?
      && |r.value.values.rs| == |vals.rs| && forall i | 0 <= i < |vals.rs| :: r.value.values.rs[i] == vals.rs[i] * KnotsToMph
    ensures script.Py2? && units == Str("knots") && vals.Raw? && vals.xs != [] ==> r.None?
    ensures script.Py2? && units == Str("Fahrenheit") ==> r == Some(Series(vals, Str("F")))
    ensures script.Py2? && units != Str("knots") && units != Str("Fahrenheit") ==> r == Some(Series(vals, units))
  {
    if script.Py3? then Some(Series(vals, units))
    else if units == Str("knots") then
      if vals.Reals? then Some(Series(Reals(Scaled(vals.rs)), Str("mph")))
      else if vals.xs == [] then Some(Series(Raw([]), Str("mph")))
      else None
    else if units == Str("Fahrenheit") then Some(Series(vals, Str("F")))
    else Some(Series(vals, units))
  }

  /** The key the series is stored under: `data['name']` (Python 2) or
      `data['name']['#text']` (Python 3). */
  function NameOf(script: Script, d: Value): Got
  {
    if script.Py3? && Index(d, "name").Found? then Index(Index(d, "name").v, "#text")
    else Index(d, "name")
  }

  /** The layout with the series added to its parameters: `update` of the
      existing `'parameters'` dict, or a new one. */
  function Filed(l: Layout, name: string, s: Series): Layout
  {
    Layout(l.stamps, Some(Put(if l.params.Some? then l.params.value else [], name, s)))
  }

  /** The two nested `try` blocks that store the series. A layout key that
      `result_dict` lacks, or a missing name, raises KeyError twice and the
      series is not written; an unhashable key or name, or a Python 3 name
      that is not a dict, raises TypeError. */
  function Store(script: Script, acc: Result, key: Value, d: Value, s: Series): Option<Result>
  {
    if !key.Str? then None
    else if !HasKey(acc, key.s) then Some(acc)
    else if NameOf(script, d).NoKey? then Some(acc)
    else if NameOf(script, d).BadType? || !NameOf(script, d).v.Str? then None
    else Some(Put(acc, key.s, Filed(Get(acc, key.s).value, NameOf(script, d).v.s, s)))
  }

  /** From the unit lookup on: the Python 3 diagnostic for a missing unit,
      the rewrite and the store. */
  function StepUnits(script: Script, verbose: bool, acc: Result, d: Value, key: Value, vals: Numbers): Option<Result>
  {
    if Index(d, "@units").NoKey? && Trapped(script, verbose, d) then None
    else if Rewrite(script, vals, UnitsOf(d)).None? then None
    else Store(script, acc, key, d, Rewrite(script, vals, UnitsOf(d)).value)
  }

  function StepValues(script: Script, verbose: bool, num: string -> Option<real>, acc: Result,
                      d: Value, key: Value, vs: seq<Value>): Option<Result>
  {
    if Coerce(num, vs).None? then None
    else StepUnits(script, verbose, acc, d, key, Coerce(num, vs).value)
  }

  /** After the layout key is read: values that cannot be read skip the
      entry (unless a Python 3 diagnostic raises). */
  function StepKeyed(script: Script, verbose: bool, num: string -> Option<real>, acc: Result,
                     d: Value, key: Value): Option<Result>
  {
    if ReadValues(script, d).None? then (if Trapped(script, verbose, d) then None else Some(acc))
    else StepValues(script, verbose, num, acc, d, key, ReadValues(script, d).value)
  }

  /** One pass of `for data in data_list`. */
  function StepData(script: Script, verbose: bool, num: string -> Option<real>, acc: Result, data: Value): Option<Result>
  {
    if Unwrapped(data).None? || !Index(Unwrapped(data).value, "@time-layout").Found? then None
    else StepKeyed(script, verbose, num, acc, Unwrapped(data).value, Index(Unwrapped(data).value, "@time-layout").v)
  }

  /** The loop over one parameter's entries. */
  function DataFold(script: Script, verbose: bool, num: string -> Option<real>, acc: Result, ds: seq<Value>): Option<Result>
    decreases |ds|
  {
    if ds == [] then Some(acc)
    else if StepData(script, verbose, num, acc, ds[0]).None? then None
    else DataFold(script, verbose, num, StepData(script, verbose, num, acc, ds[0]).value, ds[1..])
  }

  /** The loop over the parameters, each as a list of entries. */
  function ParamFold(script: Script, verbose: bool, num: string -> Option<real>, acc: Result,
                     ps: seq<(string, Value)>): Option<Result>
    decreases |ps|
  {
    if ps == [] then Some(acc)
    else if DataFold(script, verbose, num, acc, AsList(ps[0].1)).None? then None
    else ParamFold(script, verbose, num, DataFold(script, verbose, num, acc, AsList(ps[0].1)).value, ps[1..])
  }

  /** The nested loops over `params` and each `data_list`. */
  method ReadParameters(script: Script, verbose: bool, num: string -> Option<real>, acc: Result,
                        ps: seq<(string, Value)>) returns (r: Option<Result>)
    ensures r == ParamFold(script, verbose, num, acc, ps)
  {
    var result := acc;
    var i := 0;
    while i < |ps|
      invariant 0 <= i <= |ps|
      invariant ParamFold(script, verbose, num, result, ps[i..]) == ParamFold(script, verbose, num, acc, ps)
    {
      ParamStep(script, verbose, num, result, ps, i);
      var dataList := AsList(ps[i].1);
      var before := result;
      var j := 0;
      while j < |dataList|
        invariant 0 <= j <= |dataList|
        invariant DataFold(script, verbose, num, result, dataList[j..]) == DataFold(script, verbose, num, before, dataList)
      {
        DataStep(script, verbose, num, result, dataList, j);
        var next := StepData(script, verbose, num, result, dataList[j]);
        if next.None? {
          return None;
        }
        result := next.value;
        j := j + 1;
      }
      assert dataList[j..] == [];
      i := i + 1;
    }
    assert ps[i..] == [];
    return Some(result);
  }

  lemma DataStep(script: Script, verbose: bool, num: string -> Option<real>, acc: Result, ds: seq<Value>, j: nat)
    requires j < |ds|
    ensures StepData(script, verbose, num, acc, ds[j]).None? ==> DataFold(script, verbose, num, acc, ds[j..]).None?
    ensures StepData(script, verbose, num, acc, ds[j]).Some? ==>
      DataFold(script, verbose, num, acc, ds[j..])
      == DataFold(script, verbose, num, StepData(script, verbose, num, acc, ds[j]).value, ds[j + 1..])
  {
    assert ds[j..][0] == ds[j] && ds[j..][1..] == ds[j + 1..];
  }

  lemma ParamStep(script: Script, verbose: bool, num: string -> Option<real>, acc: Result,
                  ps: seq<(string, Value)>, i: nat)
    requires i < |ps|
    ensures DataFold(script, verbose, num, acc, AsList(ps[i].1)).None? ==> ParamFold(script, verbose, num, acc, ps[i..]).None?
    ensures DataFold(script, verbose, num, acc, AsList(ps[i].1)).Some? ==>
      ParamFold(script, verbose, num, acc, ps[i..])
      == ParamFold(script, verbose, num, DataFold(script, verbose, num, acc, AsList(ps[i].1)).value, ps[i + 1..])
  {
    assert ps[i..][0] == ps[i] && ps[i..][1..] == ps[i + 1..];
  }

  // ---------------------------------------------------------------------
  // The whole extraction
  // ---------------------------------------------------------------------

  /** The parameter phase on the layouts: `parameters` must be a dict; its
      first key is skipped (`list(parameters.keys())[1:]`). */
  function WithParameters(script: Script, verbose: bool, num: string -> Option<real>, dd: Value,
                          layouts: Option<Result>): Option<Result>
  {
    if layouts.None? || !Index(dd, "parameters").Found? || !Index(dd, "parameters").v.Obj? then None
    else ParamFold(script, verbose, num, layouts.value, Drop(Index(dd, "parameters").v.entries, 1))
  }

  /** `get_ndfd_web_data` from the normalised `dwml.data` value on. */
  function Extraction(script: Script, verbose: bool, num: string -> Option<real>, dd: Value): Option<Result>
  {
    if !Index(dd, "time-layout").Found? then None
    else WithParameters(script, verbose, num, dd, Layouts(script, [], AsList(Index(dd, "time-layout").v)))
  }

  method GetNdfdWebData(script: Script, verbose: bool, num: string -> Option<real>, dd: Value)
    returns (r: Option<Result>)
    ensures r == Extraction(script, verbose, num, dd)
  {
    var times := Index(dd, "time-layout");
    if !times.Found? {
      return None;
    }
    var layouts := ReadLayouts(script, AsList(times.v));
    if layouts.None? {
      return None;
    }
    var parameters := Index(dd, "parameters");
    if !parameters.Found? || !parameters.v.Obj? {
      return None;
    }
    r := ReadParameters(script, verbose, num, layouts.value, Drop(parameters.v.entries, 1));
  }

  // ---------------------------------------------------------------------
  // Properties
  // ---------------------------------------------------------------------

  function Params(l: Layout): seq<(string, Series)>
  {
    if l.params.Some? then l.params.value else []
  }

  /** A scalar `time-layout` is read as a list of one entry. */
  lemma ScalarLayoutWrapped(script: Script, verbose: bool, num: string -> Option<real>, dd: Value, t: Value)
    requires Index(dd, "time-layout") == Found(t) && !t.List?
    ensures Extraction(script, verbose, num, dd) == WithParameters(script, verbose, num, dd, Layouts(script, [], [t]))
  {
  }

  /** The first entry of `parameters` is never read: the series come from
      the remaining entries only. */
  lemma FirstParameterSkipped(script: Script, verbose: bool, num: string -> Option<real>, dd: Value,
                              first: (string, Value), rest: seq<(string, Value)>)
    requires Index(dd, "time-layout").Found? && Index(dd, "parameters") == Found(Obj([first] + rest))
    ensures Layouts(script, [], AsList(Index(dd, "time-layout").v)).Some? ==>
      Extraction(script, verbose, num, dd)
      == ParamFold(script, verbose, num, Layouts(script, [], AsList(Index(dd, "time-layout").v)).value, rest)
    ensures Layouts(script, [], AsList(Index(dd, "time-layout").v)).None? ==> Extraction(script, verbose, num, dd).None?
  {
    assert Drop([first] + rest, 1) == rest;
  }

  /** An entry without `@time-layout` is replaced by its first child, and
      only once: a child without one aborts. */
  lemma UnwrapsOnce(script: Script, verbose: bool, num: string -> Option<real>, acc: Result, data: Value)
    requires data.Obj? && !HasKey(data.entries, "@time-layout") && data.entries != []
    ensures Index(data.entries[0].1, "@time-layout").Found? ==>
      StepData(script, verbose, num, acc, data) == StepData(script, verbose, num, acc, data.entries[0].1)
    ensures !Index(data.entries[0].1, "@time-layout").Found? ==> StepData(script, verbose, num, acc, data).None?
  {
  }

  /** An entry whose values cannot be read is skipped and the loop goes on
      with the next entry, unless a Python 3 diagnostic raises. */
  lemma UnreadableValuesSkipped(script: Script, verbose: bool, num: string -> Option<real>, acc: Result,
                                data: Value, d: Value, ds: seq<Value>)
    requires Unwrapped(data) == Some(d) && Index(d, "@time-layout").Found? && ReadValues(script, d).None?
    ensures !Trapped(script, verbose, d) ==>
      DataFold(script, verbose, num, acc, [data] + ds) == DataFold(script, verbose, num, acc, ds)
    ensures Trapped(script, verbose, d) ==> DataFold(script, verbose, num, acc, [data] + ds).None?
  {
    assert ([data] + ds)[0] == data && ([data] + ds)[1..] == ds;
  }

  /** Python 2: a single `<value>` has collapsed to its text and is read one
      character at a time. */
  lemma SingleValueCharacters(utc: string -> Option<string>, d: Value, s: string)
    requires Index(d, "value") == Found(Str(s))
    ensures ReadValues(Py2(utc), d).Some?
    ensures |ReadValues(Py2(utc), d).value| == |s|
    ensures forall i | 0 <= i < |s| :: ReadValues(Py2(utc), d).value[i] == Str([s[i]])
  {
  }

  /** Python 3: a single `<value>` stays a dict, whose keys are strings, so
      the comprehension fails and the parameter is skipped. */
  lemma SingleValueUnread(d: Value, es: seq<(string, Value)>)
    requires Index(d, "value") == Found(Obj(es)) && es != []
    ensures ReadValues(Py3, d).None?
  {
    assert !HasText(Iterated(Obj(es))[0]);
  }

  /** A series that reaches the store under a known layout `k` and a name
      `n` is found at `result[k]['parameters'][n]`, replacing an earlier
      series of that name; every other name and layout keeps its value. */
  lemma SeriesStored(script: Script, acc: Result, key: Value, d: Value, s: Series, k: string, n: string)
    requires key == Str(k) && HasKey(acc, k) && NameOf(script, d) == Found(Str(n))
    ensures Store(script, acc, key, d, s).Some?
    ensures Keys(Store(script, acc, key, d, s).value) == Keys(acc)
    ensures Get(Store(script, acc, key, d, s).value, k).value.stamps == Get(acc, k).value.stamps
    ensures Get(Params(Get(Store(script, acc, key, d, s).value, k).value), n) == Some(s)
    ensures forall n' | n' != n ::
      Get(Params(Get(Store(script, acc, key, d, s).value, k).value), n') == Get(Params(Get(acc, k).value), n')
    ensures forall k' | k' != k :: Get(Store(script, acc, key, d, s).value, k') == Get(acc, k')
  {
    PutKeys(acc, k, Filed(Get(acc, k).value, n, s));
  }

  /** A series whose layout key is not in `result_dict` is not written, and
      neither is one without a name. */
  lemma SeriesNotWritten(script: Script, acc: Result, key: Value, d: Value, s: Series)
    requires key.Str?
    requires !HasKey(acc, key.s) || NameOf(script, d).NoKey?
    ensures Store(script, acc, key, d, s) == Some(acc)
  {
  }

  /** Python 2 never raises in its diagnostics, so `verbose` does not change
      the result. */
  lemma {:induction false} QuietStep(utc: string -> Option<string>, num: string -> Option<real>, acc: Result, data: Value)
    ensures StepData(Py2(utc), true, num, acc, data) == StepData(Py2(utc), false, num, acc, data)
  {
  }

  lemma {:induction false} QuietData(utc: string -> Option<string>, num: string -> Option<real>, acc: Result, ds: seq<Value>)
    ensures DataFold(Py2(utc), true, num, acc, ds) == DataFold(Py2(utc), false, num, acc, ds)
    decreases |ds|
  {
    if ds != [] {
      QuietStep(utc, num, acc, ds[0]);
      if StepData(Py2(utc), true, num, acc, ds[0]).Some? {
        QuietData(utc, num, StepData(Py2(utc), true, num, acc, ds[0]).value, ds[1..]);
      }
    }
  }

  lemma {:induction false} QuietParams(utc: string -> Option<string>, num: string -> Option<real>, acc: Result,
                                       ps: seq<(string, Value)>)
    ensures ParamFold(Py2(utc), true, num, acc, ps) == ParamFold(Py2(utc), false, num, acc, ps)
    decreases |ps|
  {
    if ps != [] {
      QuietData(utc, num, acc, AsList(ps[0].1));
      if DataFold(Py2(utc), true, num, acc, AsList(ps[0].1)).Some? {
        QuietParams(utc, num, DataFold(Py2(utc), true, num, acc, AsList(ps[0].1)).value, ps[1..]);
      }
    }
  }

  lemma VerboseIrrelevant(utc: string -> Option<string>, num: string -> Option<real>, dd: Value)
    ensures Extraction(Py2(utc), true, num, dd) == Extraction(Py2(utc), false, num, dd)
  {
    if Index(dd, "time-layout").Found? && Layouts(Py2(utc), [], AsList(Index(dd, "time-layout").v)).Some?
       && Index(dd, "parameters").Found? && Index(dd, "parameters").v.Obj? {
      QuietParams(utc, num, Layouts(Py2(utc), [], AsList(Index(dd, "time-layout").v)).value,
                  Drop(Index(dd, "parameters").v.entries, 1));
    }
  }

  /** Python 3 time stamps are the first value of each entry cut to 19
      characters, with no offset arithmetic. */
  lemma TruncatedStamps(tl: seq<Value>)
    requires forall i | 0 <= i < |tl| :: tl[i].Obj? && tl[i].entries != [] && tl[i].entries[0].1.Str?
    ensures Stamps(Py3, tl).Some? && |Stamps(Py3, tl).value| == |tl|
    ensures forall i | 0 <= i < |tl| :: Stamps(Py3, tl).value[i] == Str(Take(tl[i].entries[0].1.s, 19))
  {
    assert forall i | 0 <= i < |tl| :: Stamp(Py3, tl[i]).Some?;
  }
}
