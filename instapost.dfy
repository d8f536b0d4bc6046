/** `ndfd_to_instapost` in both scripts: ask the NDFD service for the elements
    a site's paths name, parse the answer, and turn each extracted series into
    an Instapost record under its pathname. */
module Instapost {

  import opened Wrappers
  import opened Dicts
  import opened Dom
  import opened Extract
  import NdfdUrl
  import Timestamps

  /** The Python 2 script, whose stamps go through the UTC conversion. */
  const Python2: Script := Py2(Timestamps.ConvertStamp)

  /** One reading of a series: a float, or the entry as it was read when the
      series could not be coerced. */
  datatype Reading = Number(x: real) | Entry(v: Value)

  function Readings(n: Numbers): (r: seq<Reading>)
    ensures n.Reals? ==> |r| == |n.rs| && forall i | 0 <= i < |r| :: r[i] == Number(n.rs[i])
    ensures n.Raw? ==> |r| == |n.xs| && forall i | 0 <= i < |r| :: r[i] == Entry(n.xs[i])
  {
    match n
    case Reals(rs) => seq(|rs|, i requires 0 <= i < |rs| => Number(rs[i]))
    case Raw(xs) => seq(|xs|, i requires 0 <= i < |xs| => Entry(xs[i]))
  }

  /** `{'timezone': ..., 'units': ..., 'timeseries': ...}`. */
  datatype Record = Record(timezone: string, units: Value, timeseries: seq<(string, Reading)>)

  /** `result_dict`: pathname to record. */
  type Output = seq<(string, Record)>

  // ---------------------------------------------------------------------
  // The time series of one parameter
  // ---------------------------------------------------------------------

  function Min(a: nat, b: nat): nat
  {
    if a <= b then a else b
  }

  /** The dict built from the first `n` pairs of `zip(stamps, vals)`, in
      order; a stamp that is not a string cannot be hashed and raises. */
  function Zipped(stamps: seq<Value>, vals: seq<Reading>, n: nat): Option<seq<(string, Reading)>>
    requires n <= |stamps| && n <= |vals|
    decreases n
  {
    if n == 0 then Some([])
    else if Zipped(stamps, vals, n - 1).None? || !stamps[n - 1].Str? then None
    else Some(Put(Zipped(stamps, vals, n - 1).value, stamps[n - 1].s, vals[n - 1]))
  }

  /** `dict(zip(time_stamps, vals))`: `zip` stops at the shorter list. */
  function Timeseries(stamps: seq<Value>, vals: seq<Reading>): Option<seq<(string, Reading)>>
  {
    Zipped(stamps, vals, Min(|stamps|, |vals|))
  }

  /** The dict cannot be built exactly when one of the paired stamps is not
      a string. */
  lemma {:induction false} ZippedFails(stamps: seq<Value>, vals: seq<Reading>, n: nat)
    requires n <= |stamps| && n <= |vals|
    ensures Zipped(stamps, vals, n).None? <==> exists i | 0 <= i < n :: !stamps[i].Str?
    decreases n
  {
    if n > 0 {
      ZippedFails(stamps, vals, n - 1);
    }
  }

  /** Distinct string stamps pair with the values position by position. */
  lemma {:induction false} ZipPositional(stamps: seq<Value>, vals: seq<Reading>, n: nat)
    requires n <= |stamps| && n <= |vals|
    requires forall i | 0 <= i < n :: stamps[i].Str?
    requires forall i, j | 0 <= i < j < n :: stamps[i] != stamps[j]
    ensures Zipped(stamps, vals, n).Some?
    ensures |Zipped(stamps, vals, n).value| == n
    ensures forall i | 0 <= i < n :: Zipped(stamps, vals, n).value[i] == (stamps[i].s, vals[i])
    decreases n
  {
    if n > 0 {
      ZipPositional(stamps, vals, n - 1);
      var prev := Zipped(stamps, vals, n - 1).value;
      PutNew(prev, stamps[n - 1].s, vals[n - 1]);
    }
  }

  /** A repeated stamp keeps the value of its last pair. */
  lemma {:induction false} LastStampWins(stamps: seq<Value>, vals: seq<Reading>, n: nat, j: nat)
    requires n <= |stamps| && n <= |vals| && j < n
    requires Zipped(stamps, vals, n).Some? && stamps[j].Str?
    requires forall k | j < k < n :: stamps[k] != stamps[j]
    ensures Get(Zipped(stamps, vals, n).value, stamps[j].s) == Some(vals[j])
    decreases n
  {
    if j < n - 1 {
      LastStampWins(stamps, vals, n - 1, j);
      assert stamps[n - 1].Str? && stamps[n - 1] != stamps[j];
    }
  }

  /** The whole series: both lists as long as each other, distinct stamps. */
  lemma SeriesPairs(stamps: seq<Value>, vals: seq<Reading>)
    requires |stamps| == |vals|
    requires forall i | 0 <= i < |stamps| :: stamps[i].Str?
    requires forall i, j | 0 <= i < j < |stamps| :: stamps[i] != stamps[j]
    ensures Timeseries(stamps, vals).Some? && |Timeseries(stamps, vals).value| == |stamps|
    ensures forall i | 0 <= i < |stamps| :: Timeseries(stamps, vals).value[i] == (stamps[i].s, vals[i])
  {
    ZipPositional(stamps, vals, |stamps|);
  }

  /** Stamps past the end of the values are never paired, so never hashed. */
  lemma ExtraStampsIgnored(stamps: seq<Value>, extra: seq<Value>, vals: seq<Reading>)
    requires |stamps| == |vals|
    ensures Timeseries(stamps + extra, vals) == Timeseries(stamps, vals)
  {
    ZippedPrefix(stamps, extra, vals, |stamps|);
  }

  lemma {:induction false} ZippedPrefix(stamps: seq<Value>, extra: seq<Value>, vals: seq<Reading>, n: nat)
    requires n <= |stamps| && n <= |vals|
    ensures Zipped(stamps + extra, vals, n) == Zipped(stamps, vals, n)
    decreases n
  {
    if n > 0 {
      ZippedPrefix(stamps, extra, vals, n - 1);
      assert (stamps + extra)[n - 1] == stamps[n - 1];
    }
  }

  // ---------------------------------------------------------------------
  // Assembling the records
  // ---------------------------------------------------------------------

  /** `paths[ndfd_param_dict[param]]`: the NDFD name to its element, the
      element to the site's pathname; a missing key raises. */
  function Pathname(names: seq<(string, string)>, paths: seq<(string, string)>, param: string): (r: Option<string>)
    ensures r.Some? <==> HasKey(names, param) && HasKey(paths, Get(names, param).value)
  {
    if Get(names, param).None? then None else Get(paths, Get(names, param).value)
  }

  /** A series whose record cannot be built: an unhashable stamp or an
      unmapped name. */
  predicate Unrecorded(names: seq<(string, string)>, paths: seq<(string, string)>, stamps: seq<Value>,
                       p: (string, Series))
  {
    Timeseries(stamps, Readings(p.1.values)).None? || Pathname(names, paths, p.0).None?
  }

  /** The record of one series. */
  function RecordOf(stamps: seq<Value>, s: Series): Record
    requires Timeseries(stamps, Readings(s.values)).Some?
  {
    Record("UTC", s.units, Timeseries(stamps, Readings(s.values)).value)
  }

  /** One turn of the inner loop: `result_dict.update({pathname: record})`. */
  function AddSeries(names: seq<(string, string)>, paths: seq<(string, string)>, stamps: seq<Value>,
                     acc: Output, p: (string, Series)): (r: Option<Output>)
    ensures r.None? <==> Unrecorded(names, paths, stamps, p)
  {
    if Unrecorded(names, paths, stamps, p) then None
    else Some(Put(acc, Pathname(names, paths, p.0).value, RecordOf(stamps, p.1)))
  }

  function SeriesFold(names: seq<(string, string)>, paths: seq<(string, string)>, stamps: seq<Value>,
                      acc: Output, ps: seq<(string, Series)>): Option<Output>
    decreases |ps|
  {
    if ps == [] then Some(acc)
    else if AddSeries(names, paths, stamps, acc, ps[0]).None? then None
    else SeriesFold(names, paths, stamps, AddSeries(names, paths, stamps, acc, ps[0]).value, ps[1..])
  }

  /** One turn of the outer loop: `v['parameters']` raises when the layout
      got no parameter. */
  function AddRecords(names: seq<(string, string)>, paths: seq<(string, string)>, acc: Output,
                      e: (string, Layout)): Option<Output>
  {
    if e.1.params.None? then None
    else SeriesFold(names, paths, e.1.stamps, acc, e.1.params.value)
  }

  function Assemble(names: seq<(string, string)>, paths: seq<(string, string)>, acc: Output,
                    data: Result): Option<Output>
    decreases |data|
  {
    if data == [] then Some(acc)
    else if AddRecords(names, paths, acc, data[0]).None? then None
    else Assemble(names, paths, AddRecords(names, paths, acc, data[0]).value, data[1..])
  }

  lemma SeriesStep(names: seq<(string, string)>, paths: seq<(string, string)>, stamps: seq<Value>,
                   acc: Output, ps: seq<(string, Series)>, j: nat)
    requires j < |ps|
    ensures AddSeries(names, paths, stamps, acc, ps[j]).None? ==> SeriesFold(names, paths, stamps, acc, ps[j..]).None?
    ensures AddSeries(names, paths, stamps, acc, ps[j]).Some? ==>
      SeriesFold(names, paths, stamps, acc, ps[j..])
      == SeriesFold(names, paths, stamps, AddSeries(names, paths, stamps, acc, ps[j]).value, ps[j + 1..])
  {
    assert ps[j..][0] == ps[j] && ps[j..][1..] == ps[j + 1..];
  }

  lemma AssembleStep(names: seq<(string, string)>, paths: seq<(string, string)>, acc: Output,
                     data: Result, i: nat)
    requires i < |data|
    ensures AddRecords(names, paths, acc, data[i]).None? ==> Assemble(names, paths, acc, data[i..]).None?
    ensures AddRecords(names, paths, acc, data[i]).Some? ==>
      Assemble(names, paths, acc, data[i..])
      == Assemble(names, paths, AddRecords(names, paths, acc, data[i]).value, data[i + 1..])
  {
    assert data[i..][0] == data[i] && data[i..][1..] == data[i + 1..];
  }

  /** The two nested loops of `ndfd_to_instapost`. */
  method Records(names: seq<(string, string)>, paths: seq<(string, string)>, data: Result)
    returns (r: Option<Output>)
    ensures r == Assemble(names, paths, [], data)
  {
    var result: Output := [];
    var i := 0;
    while i < |data|
      invariant 0 <= i <= |data|
      invariant Assemble(names, paths, [], data) == Assemble(names, paths, result, data[i..])
    {
      AssembleStep(names, paths, result, data, i);
      var v := data[i].1;
      if v.params.None? {
        return None;
      }
      var timeStamps := v.stamps;
      var ps := v.params.value;
      ghost var start := result;
      var j := 0;
      while j < |ps|
        invariant 0 <= j <= |ps|
        invariant SeriesFold(names, paths, timeStamps, start, ps)
                  == SeriesFold(names, paths, timeStamps, result, ps[j..])
      {
        SeriesStep(names, paths, timeStamps, result, ps, j);
        var timeseries := Timeseries(timeStamps, Readings(ps[j].1.values));
        var pathname := Pathname(names, paths, ps[j].0);
        if timeseries.None? || pathname.None? {
          return None;
        }
        result := Put(result, pathname.value, Record("UTC", ps[j].1.units, timeseries.value));
        j := j + 1;
      }
      i := i + 1;
    }
    r := Some(result);
  }

  // ---------------------------------------------------------------------
  // Properties of the records
  // ---------------------------------------------------------------------

  /** A layout that stops the whole site. */
  predicate Fatal(names: seq<(string, string)>, paths: seq<(string, string)>, l: Layout)
  {
    l.params.None?
    || exists j | 0 <= j < |l.params.value| :: Unrecorded(names, paths, l.stamps, l.params.value[j])
  }

  lemma {:induction false} SeriesFoldFails(names: seq<(string, string)>, paths: seq<(string, string)>,
                                           stamps: seq<Value>, acc: Output, ps: seq<(string, Series)>)
    ensures SeriesFold(names, paths, stamps, acc, ps).None?
            <==> exists j | 0 <= j < |ps| :: Unrecorded(names, paths, stamps, ps[j])
    decreases |ps|
  {
    if ps != [] && !Unrecorded(names, paths, stamps, ps[0]) {
      SeriesFoldFails(names, paths, stamps, AddSeries(names, paths, stamps, acc, ps[0]).value, ps[1..]);
      assert forall j | 1 <= j < |ps| :: ps[j] == ps[1..][j - 1];
    }
  }

  /** The site gets no records at all exactly when some layout lacks
      parameters or some series has an unhashable stamp or an unmapped name,
      wherever it stands. */
  lemma {:induction false} AssembleFails(names: seq<(string, string)>, paths: seq<(string, string)>,
                                         acc: Output, data: Result)
    ensures Assemble(names, paths, acc, data).None?
            <==> exists i | 0 <= i < |data| :: Fatal(names, paths, data[i].1)
    decreases |data|
  {
    if data != [] {
      if data[0].1.params.Some? {
        SeriesFoldFails(names, paths, data[0].1.stamps, acc, data[0].1.params.value);
      }
      if !Fatal(names, paths, data[0].1) {
        AssembleFails(names, paths, AddRecords(names, paths, acc, data[0]).value, data[1..]);
        assert forall i | 1 <= i < |data| :: data[i] == data[1..][i - 1];
      }
    }
  }

  /** Every record the result holds is in UTC. */
  ghost predicate AllUtc(out: Output)
  {
    forall p :: Get(out, p).Some? ==> Get(out, p).value.timezone == "UTC"
  }

  lemma {:induction false} SeriesFoldUtc(names: seq<(string, string)>, paths: seq<(string, string)>,
                                         stamps: seq<Value>, acc: Output, ps: seq<(string, Series)>)
    requires AllUtc(acc)
    ensures SeriesFold(names, paths, stamps, acc, ps).Some? ==> AllUtc(SeriesFold(names, paths, stamps, acc, ps).value)
    decreases |ps|
  {
    if ps != [] && !Unrecorded(names, paths, stamps, ps[0]) {
      var next := AddSeries(names, paths, stamps, acc, ps[0]).value;
      assert AllUtc(next) by {
        forall p | Get(next, p).Some? ensures Get(next, p).value.timezone == "UTC" {
          if p != Pathname(names, paths, ps[0].0).value {
            assert Get(next, p) == Get(acc, p);
          }
        }
      }
      SeriesFoldUtc(names, paths, stamps, next, ps[1..]);
    }
  }

  lemma {:induction false} AssembleUtc(names: seq<(string, string)>, paths: seq<(string, string)>,
                                       acc: Output, data: Result)
    requires AllUtc(acc)
    ensures Assemble(names, paths, acc, data).Some? ==> AllUtc(Assemble(names, paths, acc, data).value)
    decreases |data|
  {
    if data != [] && data[0].1.params.Some? {
      SeriesFoldUtc(names, paths, data[0].1.stamps, acc, data[0].1.params.value);
      if AddRecords(names, paths, acc, data[0]).Some? {
        AssembleUtc(names, paths, AddRecords(names, paths, acc, data[0]).value, data[1..]);
      }
    }
  }

  /** Series whose names lead to the same pathname overwrite each other: the
      last one decides the record. */
  lemma {:induction false} LastSeriesWins(names: seq<(string, string)>, paths: seq<(string, string)>,
                                          stamps: seq<Value>, acc: Output, ps: seq<(string, Series)>,
                                          j: nat, p: string)
    requires j < |ps|
    requires Pathname(names, paths, ps[j].0) == Some(p)
    requires Timeseries(stamps, Readings(ps[j].1.values)).Some?
    requires forall k | j < k < |ps| :: Pathname(names, paths, ps[k].0) != Some(p)
    ensures SeriesFold(names, paths, stamps, acc, ps).Some? ==>
      Get(SeriesFold(names, paths, stamps, acc, ps).value, p) == Some(RecordOf(stamps, ps[j].1))
    decreases |ps|
  {
    if !Unrecorded(names, paths, stamps, ps[0]) {
      var next := AddSeries(names, paths, stamps, acc, ps[0]).value;
      if j == 0 {
        KeptAfter(names, paths, stamps, next, ps[1..], p);
      } else {
        assert forall k | j - 1 < k < |ps| - 1 :: ps[1..][k] == ps[k + 1];
        LastSeriesWins(names, paths, stamps, next, ps[1..], j - 1, p);
      }
    }
  }

  /** A pathname no later series maps to keeps its record. */
  lemma {:induction false} KeptAfter(names: seq<(string, string)>, paths: seq<(string, string)>,
                                     stamps: seq<Value>, acc: Output, ps: seq<(string, Series)>, p: string)
    requires forall k | 0 <= k < |ps| :: Pathname(names, paths, ps[k].0) != Some(p)
    ensures SeriesFold(names, paths, stamps, acc, ps).Some? ==>
      Get(SeriesFold(names, paths, stamps, acc, ps).value, p) == Get(acc, p)
    decreases |ps|
  {
    if ps != [] && !Unrecorded(names, paths, stamps, ps[0]) {
      var next := AddSeries(names, paths, stamps, acc, ps[0]).value;
      assert Get(next, p) == Get(acc, p);
      assert forall k | 0 <= k < |ps| - 1 :: ps[1..][k] == ps[k + 1];
      KeptAfter(names, paths, stamps, next, ps[1..], p);
    }
  }

  // ---------------------------------------------------------------------
  // From the site to its records
  // ---------------------------------------------------------------------

  /** The request: every element the site's paths name, no dates. */
  function SiteUrl(lat: string, lon: string, paths: seq<(string, string)>, units: string): string
  {
    NdfdUrl.RequestUrl(lat, lon, Keys(paths), units)
  }

  /** `xml2dict(raw)['dwml']['data']` and the rest of `get_ndfd_web_data`. */
  function FromDocument(script: Script, fold: string -> string, verbose: bool, num: string -> Option<real>,
                        names: seq<(string, string)>, paths: seq<(string, string)>, doc: Node): Option<Output>
  {
    var top := Index(Parse(doc, fold, script.Py2?).1, "dwml");
    if !top.Found? || !Index(top.v, "data").Found? then None
    else FromData(script, verbose, num, names, paths, Index(top.v, "data").v)
  }

  function FromData(script: Script, verbose: bool, num: string -> Option<real>,
                    names: seq<(string, string)>, paths: seq<(string, string)>, dd: Value): Option<Output>
  {
    if Extraction(script, verbose, num, dd).None? then None
    else Assemble(names, paths, [], Extraction(script, verbose, num, dd).value)
  }

  /** `ndfd_to_instapost`: `fetch` stands for the HTTP request and the XML
      parser, `None` for any failure of either. */
  function Forecast(script: Script, fold: string -> string, verbose: bool, num: string -> Option<real>,
                    fetch: string -> Option<Node>, names: seq<(string, string)>,
                    lat: string, lon: string, paths: seq<(string, string)>, units: string): Option<Output>
  {
    var doc := fetch(SiteUrl(lat, lon, paths, units));
    if doc.None? then None
    else FromDocument(script, fold, verbose, num, names, paths, doc.value)
  }

  method NdfdToInstapost(script: Script, fold: string -> string, verbose: bool, num: string -> Option<real>,
                         fetch: string -> Option<Node>, names: seq<(string, string)>,
                         lat: string, lon: string, paths: seq<(string, string)>, units: string)
    returns (r: Option<Output>)
    ensures r == Forecast(script, fold, verbose, num, fetch, names, lat, lon, paths, units)
  {
    var url := NdfdUrl.RequestUrl(lat, lon, Keys(paths), units);
    var raw := fetch(url);
    if raw.None? {
      return None;
    }
    var _, top := ParseElement(raw.value, fold, script.Py2?);
    var dwml := Index(top, "dwml");
    if !dwml.Found? {
      return None;
    }
    var dataDict := Index(dwml.v, "data");
    if !dataDict.Found? {
      return None;
    }
    var data := GetNdfdWebData(script, verbose, num, dataDict.v);
    if data.None? {
      return None;
    }
    r := Records(names, paths, data.value);
  }

  /** The request asks for exactly the elements the paths name, when the
      coordinates and units hold no placeholder letter and no path key holds
      an `&`. */
  lemma SiteUrlRequestsPaths(lat: string, lon: string, paths: seq<(string, string)>, units: string)
    requires NdfdUrl.Inert(lat) && NdfdUrl.Inert(lon) && NdfdUrl.Inert(units)
    requires forall i | 0 <= i < |paths| :: '&' !in paths[i].0
    requires exists i | 0 <= i < |paths| :: paths[i].0 != ""
    ensures SiteUrl(lat, lon, paths, units) == NdfdUrl.Filled(lat, lon, "", "", units, NdfdUrl.NdfdText(Keys(paths)))
    ensures Text.Split(NdfdUrl.NdfdText(Keys(paths)), '&') == NdfdUrl.Pairs(Keys(paths))
  {
    var ks := Keys(paths);
    NdfdUrl.RequestUrlFills(lat, lon, ks, units);
    var i :| 0 <= i < |paths| && paths[i].0 != "";
    assert ks[i] != "";
    NdfdUrl.NdfdTextPairs(ks);
  }

  /** Everything a site ends up with is in UTC. */
  lemma ForecastUtc(script: Script, fold: string -> string, verbose: bool, num: string -> Option<real>,
                    fetch: string -> Option<Node>, names: seq<(string, string)>,
                    lat: string, lon: string, paths: seq<(string, string)>, units: string)
    ensures Forecast(script, fold, verbose, num, fetch, names, lat, lon, paths, units).Some? ==>
      AllUtc(Forecast(script, fold, verbose, num, fetch, names, lat, lon, paths, units).value)
  {
    var f := Forecast(script, fold, verbose, num, fetch, names, lat, lon, paths, units);
    if f.Some? {
      var doc := fetch(SiteUrl(lat, lon, paths, units)).value;
      var dd := Index(Index(Parse(doc, fold, script.Py2?).1, "dwml").v, "data").v;
      AssembleUtc(names, paths, [], Extraction(script, verbose, num, dd).value);
    }
  }

  /** Python 2 stamps are the UTC conversions of the layout's strings, in
      order, and the layout fails when one of them does not convert. */
  lemma Python2Stamps(tl: seq<Value>)
    ensures Stamps(Python2, tl).Some?
            <==> forall i | 0 <= i < |tl| :: tl[i].Str? && Timestamps.ConvertStamp(tl[i].s).Some?
    ensures Stamps(Python2, tl).Some? ==>
      forall i | 0 <= i < |tl| :: Stamps(Python2, tl).value[i] == Str(Timestamps.ConvertStamp(tl[i].s).value)
  {
    assert forall i | 0 <= i < |tl| :: Stamp(Python2, tl[i]).Some? <==> tl[i].Str? && Timestamps.ConvertStamp(tl[i].s).Some?;
  }

  /** A Python 2 stamp `head`, one separator, `offset` becomes the local
      time shifted back by the offset, rendered by `str(datetime)`. */
  lemma Python2StampUtc(head: string, c: char, offset: string, local: Timestamps.DateTime, minutes: int,
                        u: Timestamps.DateTime)
    requires |head| == 19 && Timestamps.ParseLocal(head) == Some(local)
    requires Timestamps.ReadOffset(offset) == Some(minutes)
    requires Timestamps.Shift(local, -minutes) == Some(u)
    ensures Stamp(Python2, Str(head + [c] + offset)) == Some(Str(Timestamps.FormatStamp(u)))
  {
    Timestamps.ConvertPieces(head, c, offset, local, minutes, u);
  }
}
