# NDFD forecast to Instapost: a Dafny model

This project models in Dafny the data-reshaping core of the NOAA NDFD
forecast scripts, and proves properties of that model. The scripts ask
the National Digital Forecast Database (NDFD) for a site's forecast and
normalise the XML answer into nested dictionaries. From those they pull
each time layout and each parameter series. Each series then becomes an
Instapost record: a UTC timeseries stored under one of the site's pathnames.

There are two copies of the pipeline:
- `noaa_forecast/get_noaa_forecast.py` is written for Python 2. Its text-only
  elements collapse to strings. It shifts each time stamp back by its
  unsigned offset, a conversion meant to give UTC, and rewrites units.
- `noaa_forecast/get_forecast.py` is written for Python 3. There, leaves stay
  `{"#text": v}`, stamps are only truncated, and units pass through
  unchanged.

Next to them sits the configuration merger `config/merge_config.py`. It cuts a
multi-document YAML file at `---` lines and folds the documents into one
mapping, reporting leaves that conflict.

The modules follow the program's structure:

| module | file | models |
|---|---|---|
| `Wrappers` | wrappers.dfy | `Option`; `None` is an absent key or an uncaught exception |
| `Text` | text.dfy | the Python string built-ins the scripts call: `strip`, `split`, `join`, `replace`, slicing, `str(int)`, `int(str)` |
| `Dicts` | dicts.dfy | insertion-ordered dictionaries as sequences of pairs |
| `Dom` | dom.dfy | `parse_element` (both scripts) |
| `Timestamps` | timestamps.dfy | `strptime`, `timedelta` subtraction and `str(datetime)` for the Python 2 stamp conversion |
| `NdfdUrl` | ndfd_url.dfy | `create_ndfd_url` (both scripts) |
| `Extract` | extract.dfy | `get_ndfd_web_data` after the HTTP fetch (both scripts; `Script` selects the variant) |
| `Instapost` | instapost.dfy | `ndfd_to_instapost` (both scripts) |
| `MergeConfig` | merge_config.dfy | `merge` and `loadConfig` |

The source works in place in three kinds of routine:
- the loops of `parse_element`;
- the loops of `get_ndfd_web_data` and `ndfd_to_instapost`;
- `merge`'s mutation of its argument and `loadConfig`'s accumulation.

Each of these is a `method` with a loop, proved equal to a specification
function. The properties are lemmas about those functions.

Some behaviours of the code are easy to misread, and the model follows the
code in each of them:
- NDFD offsets carry a sign at index 19, which the Python 2 code never reads,
  so `-05:00` and `+05:00` are both subtracted (`Timestamps.SignIgnored`).
- A stamp whose offset does not read raises inside `get_ndfd_web_data`. The
  exception is not caught there, so the whole site is lost, not only that
  time layout.
- Under Python 3 the collapse test `dict_data.keys() == ["#text"]` compares a
  keys view with a list and never holds, so text-only elements stay
  `{"#text": v}` (the `py2` parameter of `Dom.Parse`).
- A series and its time stamps are paired by `zip`, which stops at the shorter
  list; a length mismatch is never reported.

## Model

| member | source | states |
|---|---|---|
| Dicts.Get | config/merge_config.py:14 | a lookup fails exactly when the key is absent |
| Dicts.GetFirst | config/merge_config.py:14 | a successful lookup yields the value of the first entry with that key |
| Dicts.GetDistinct | config/merge_config.py:14 | in a dict with distinct keys, the lookup of an entry's key yields that entry's value |
| Dicts.Put | noaa_forecast/get_noaa_forecast.py:63 | after `d[k] = v`, `k` maps to `v` and every other key keeps its value |
| Dicts.PutKeys | config/merge_config.py:21 | assignment keeps the key order, appending the key only when it was new |
| Dicts.PutDistinct | config/merge_config.py:21 | assignment keeps the keys distinct |
| Dicts.PutNew | noaa_forecast/get_noaa_forecast.py:62-63 | storing a new key appends one entry at the end |
| Dom.ParseElement | noaa_forecast/get_noaa_forecast.py:40-68 | the loop-and-recursion implementation yields exactly the reference `Parse`, with either interpreter's collapse rule and whitespace set |
| Dom.ParseWellFormed | noaa_forecast/get_noaa_forecast.py:52-63 | on any tree: dicts have distinct keys and never hold `{}`; lists have at least two items and hold no `{}` |
| Dom.EmptyChildDropped | noaa_forecast/get_noaa_forecast.py:56-63 | a child whose value is `{}` leaves the parent exactly as if the child were absent |
| Dom.BlankTextDropped | noaa_forecast/get_noaa_forecast.py:44-46 | a text child that is whitespace to the interpreter's `strip()` is dropped in the same way; Python 2 also counts U+180E as whitespace |
| Dom.VowelSeparatorText | noaa_forecast/get_noaa_forecast.py:44-46 | a text of U+180E alone is dropped under Python 2 and kept as text under Python 3 |
| Dom.SameTagAccumulates | noaa_forecast/get_noaa_forecast.py:55-63 | same-named children leave: no key for none, the value for one, the list of all of them in document order for more; the scalar-or-list view recovers the run. This holds unless the first child's value is itself a list, which is then extended |
| Dom.InsertSame | noaa_forecast/get_noaa_forecast.py:57-60 | one more same-named non-empty child extends the stored run by that child, unless the first child's value is itself a list, which is then extended |
| Dom.InsertOther | noaa_forecast/get_noaa_forecast.py:55-63 | a child under another name, or an empty one, leaves a name's entry alone |
| Dom.SameTagChildren | noaa_forecast/get_forecast.py:49-60 | for an element, children under a tag accumulate as above, read on the parsed children, unless the first child's value is itself a list, which is then extended |
| Dom.AttributesComeFirst | noaa_forecast/get_noaa_forecast.py:47-53 | attributes are stored under `"@"+name` in document order before any child entry, and an element with attributes never collapses |
| Dom.AttributeValue | noaa_forecast/get_forecast.py:44-48 | an attribute's folded value is found under `"@"+name` unless a child carries that very key |
| Dom.AttrEntriesInOrder | noaa_forecast/get_noaa_forecast.py:50-51 | with distinct names, the attribute loop lists exactly the pairs `("@"+name, fold(value))` in order |
| Dom.AttrKeys | noaa_forecast/get_noaa_forecast.py:51 | every attribute key begins with `@` |
| Dom.InsertAllKeepsKeys | noaa_forecast/get_noaa_forecast.py:53-63 | the children loop keeps the keys already present, in order, as a prefix |
| Dom.InsertAllOtherKey | noaa_forecast/get_noaa_forecast.py:53-63 | the children loop never touches a key no child carries |
| Dom.InsertAllAppend | noaa_forecast/get_noaa_forecast.py:53-54 | the children loop over `a + b` is the loop over `a` followed by the loop over `b` |
| Dom.TextLeaf | noaa_forecast/get_noaa_forecast.py:64-67 | a text-only element becomes its text under Python 2 and stays `{"#text": text}` under Python 3 |
| Text.Split | noaa_forecast/get_noaa_forecast.py:174-175 | `split` gives at least one part; the parts joined with the separator give back the string, and none holds the separator |
| Text.SplitJoin | noaa_forecast/get_noaa_forecast.py:174-175 | splitting a join recovers the parts when none holds the separator |
| Text.ParseSigned | noaa_forecast/get_noaa_forecast.py:174-175 | `int()` of a stripped string succeeds exactly on digits, or on a sign followed by optional whitespace and digits, and yields the digits' value with that sign |
| Text.SignSpaceDigits | noaa_forecast/get_noaa_forecast.py:174-175 | Python 2 `int()` skips whitespace after the sign: a sign, spaces and digits read as the signed value (`int("- 5") == -5`) |
| Text.NatToString | noaa_forecast/get_noaa_forecast.py:116 | `str(n)` reads back as `n` and has no leading zero |
| Text.Take | noaa_forecast/get_forecast.py:163 | `s[:n]` is the first `n` elements of `s`, or all of `s` when it is shorter |
| Timestamps.AddDaysExact | noaa_forecast/get_noaa_forecast.py:176-177 | adding `k` days moves the ordinal by exactly `k`, and overflows exactly when the target leaves years 1 to 9999 |
| Timestamps.ShiftExact | noaa_forecast/get_noaa_forecast.py:176-177 | subtracting a `timedelta` moves the absolute minute count by exactly that many minutes and keeps the seconds; it fails exactly outside the `datetime` range |
| Timestamps.OrdinalBounds | noaa_forecast/get_noaa_forecast.py:177 | every valid date's ordinal lies between those of 0001-01-01 and 9999-12-31 |
| Timestamps.NextDayOrdinal | noaa_forecast/get_noaa_forecast.py:177 | the next day is valid and one ordinal later |
| Timestamps.PrevDayOrdinal | noaa_forecast/get_noaa_forecast.py:177 | the previous day is valid and one ordinal earlier |
| Timestamps.YearStep | noaa_forecast/get_noaa_forecast.py:177 | the closed-form day count grows by each year's length under the Gregorian leap rule |
| Timestamps.ParseLocal | noaa_forecast/get_noaa_forecast.py:172 | `strptime` succeeds only with a valid `datetime` |
| Timestamps.ParseRender | noaa_forecast/get_noaa_forecast.py:172 | `strptime` with `%Y-%m-%dT%H:%M:%S` reads back what `isoformat('T')` writes, for every valid time |
| Timestamps.RenderShape | noaa_forecast/get_noaa_forecast.py:178 | `str(datetime)` is 19 characters of zero-padded fields in `YYYY-MM-DD HH:MM:SS` positions |
| Timestamps.StampParts | noaa_forecast/get_noaa_forecast.py:172-175 | reading a stamp succeeds only on at least 21 characters and with a valid local time |
| Timestamps.SignIgnored | noaa_forecast/get_noaa_forecast.py:172-175 | whatever character stands at index 19, the parts read and the converted stamp are the same |
| Timestamps.OffsetDigits | noaa_forecast/get_noaa_forecast.py:173-176 | an offset written `hh:mm` reads as `hh*60+mm` minutes |
| Timestamps.ReadOffsetPair | noaa_forecast/get_noaa_forecast.py:173-176 | an offset whose two colon-free parts read as `h` and `m` gives `h*60+m` minutes |
| Timestamps.ConvertPieces | noaa_forecast/get_noaa_forecast.py:171-179 | a stamp whose head reads as `local` and whose offset reads as `minutes` becomes `str()` of `local` moved back by `minutes`, whatever the sign character |
| Timestamps.ConvertStampOf | noaa_forecast/get_noaa_forecast.py:171-179 | the appended string is `str()` of the local time shifted back by the offset read |
| Timestamps.SubtractOffset | noaa_forecast/get_noaa_forecast.py:176-177 | a successful subtraction yields a valid `datetime` |
| Timestamps.ExampleOffsetSubtracted | noaa_forecast/get_noaa_forecast.py:177 | 23:30 with offset 05:00 becomes 18:30 of the same day: the offset is subtracted |
| Timestamps.ExampleDayBefore | noaa_forecast/get_noaa_forecast.py:177 | 02:00 on 1 January minus 5 hours is 21:00 on 31 December of the year before |
| Timestamps.ExampleOverflow | noaa_forecast/get_noaa_forecast.py:177 | moving before 0001-01-01 raises OverflowError |
| NdfdUrl.DateText | noaa_forecast/get_noaa_forecast.py:115-120 | date text fails (TypeError in `replace`) exactly for an empty tuple, and the default `''` stays `''` |
| NdfdUrl.NdfdText | noaa_forecast/get_noaa_forecast.py:121-125 | the element text is empty exactly when no element is non-empty |
| NdfdUrl.Pairs | noaa_forecast/get_noaa_forecast.py:122 | each element `x` becomes `x=x`, position by position |
| NdfdUrl.CreateNdfdUrl | noaa_forecast/get_noaa_forecast.py:84-136 | building the URL fails exactly when a date argument is an empty tuple or list |
| NdfdUrl.SubstituteFills | noaa_forecast/get_noaa_forecast.py:128-134 | with latitude, longitude, dates and units free of placeholder letters, the `replace` chain yields the template with each value in its own field; the element text, put in by the last `replace`, may hold any letters |
| NdfdUrl.CreateNdfdUrlFills | noaa_forecast/get_noaa_forecast.py:112-136 | when latitude, longitude, units and both dates are free of `L`, `S`, `E`, `U` and `N`: the URL is the template with each of them and the element text in place, whatever the element names |
| NdfdUrl.RequestUrlFills | noaa_forecast/get_forecast.py:110-131 | when latitude, longitude and units are free of `L`, `S`, `E`, `U` and `N`, whatever the element names: the default dates leave `begin` and `end` empty, and the Python 3 copy, with `long` for `lon`, builds the same URL |
| NdfdUrl.NumberDate | noaa_forecast/get_noaa_forecast.py:115-117 | a numeric date is `str(y)-str(m)-str(d)` without padding, split back at `-` into the numbers' strings |
| NdfdUrl.TextDate | noaa_forecast/get_noaa_forecast.py:115-117 | a non-empty date string is iterated by character, so its characters come out joined by `-` |
| NdfdUrl.NdfdTextPairs | noaa_forecast/get_noaa_forecast.py:121-123 | the element text splits at `&` into one `x=x` pair per element, empty ones included |
| NdfdUrl.NdfdTextInert | noaa_forecast/get_noaa_forecast.py:121-125 | element names free of placeholder letters give an element text free of them |
| NdfdUrl.ReplaceLatSlot | noaa_forecast/get_noaa_forecast.py:129 | `replace('LATITUDE', …)` changes the latitude field only |
| NdfdUrl.ReplaceLonSlot | noaa_forecast/get_noaa_forecast.py:130 | `replace('LONGITUDE', …)` changes the longitude field only |
| NdfdUrl.ReplaceStartSlot | noaa_forecast/get_noaa_forecast.py:131 | `replace('START_DATE', …)` changes the start field only |
| NdfdUrl.ReplaceEndSlot | noaa_forecast/get_noaa_forecast.py:132 | `replace('END_DATE', …)` changes the end field only |
| NdfdUrl.ReplaceUnitsSlot | noaa_forecast/get_noaa_forecast.py:133 | `replace('UNITS', …)` changes the units field only |
| NdfdUrl.ReplaceNdfdSlot | noaa_forecast/get_noaa_forecast.py:134 | `replace('NDFD', …)` changes the element field only |
| NdfdUrl.UrlFrameGood | noaa_forecast/get_noaa_forecast.py:112 | the `BASE_URL` text begins no placeholder name outside its placeholders |
| Extract.Index | noaa_forecast/get_noaa_forecast.py:163 | a subscript finds the value exactly on a dict holding the key, raises KeyError on a dict without it, and TypeError otherwise |
| Extract.Stamps | noaa_forecast/get_noaa_forecast.py:170-179 | a layout's stamps exist exactly when every entry converts, and are the entries' conversions, in order |
| Extract.ConvertTimes | noaa_forecast/get_noaa_forecast.py:170-179 | the append loop computes `Stamps` |
| Extract.ReadStamps | noaa_forecast/get_noaa_forecast.py:165-179 | `start-valid-time`, made a list, gives that layout's stamps |
| Extract.ReadLayouts | noaa_forecast/get_noaa_forecast.py:157-180 | the layout loop computes the reference `Layouts` |
| Extract.TruncatedStamps | noaa_forecast/get_forecast.py:163 | under Python 3 each stamp is the entry's first value cut to 19 characters, with no offset arithmetic |
| Extract.ScalarLayoutWrapped | noaa_forecast/get_noaa_forecast.py:157-160 | a single `time-layout` is read as a list of one |
| Extract.FirstParameterSkipped | noaa_forecast/get_noaa_forecast.py:181-184 | the first entry of `parameters` is never read; the series come from the rest only |
| Extract.UnwrapsOnce | noaa_forecast/get_noaa_forecast.py:189-191 | an entry without `@time-layout` is replaced by its first child once; a child without one aborts |
| Extract.Iterated | noaa_forecast/get_noaa_forecast.py:193 | iterating gives a list's items, a string's characters or a dict's keys |
| Extract.Texts | noaa_forecast/get_forecast.py:177 | `[x['#text'] for x in v]` succeeds exactly when every item holds `#text`, and yields those values |
| Extract.ReadValues | noaa_forecast/get_noaa_forecast.py:192-194 | Python 2 reads values exactly when `value` is present, as its iteration; Python 3 exactly when every item holds `#text`, and then reads those `#text` values |
| Extract.UnreadableValuesSkipped | noaa_forecast/get_forecast.py:176-185 | an entry whose values cannot be read is skipped and the loop goes on; only a raising Python 3 diagnostic aborts |
| Extract.SingleValueCharacters | noaa_forecast/get_noaa_forecast.py:193 | under Python 2 a single collapsed `<value>` is read one character at a time |
| Extract.SingleValueUnread | noaa_forecast/get_forecast.py:177 | under Python 3 a single `<value>` stays a dict and its parameter is skipped |
| Extract.Convert | noaa_forecast/get_noaa_forecast.py:203 | the float list exists exactly when every entry converts; TypeError exactly when a non-string comes before any failure |
| Extract.Coerce | noaa_forecast/get_noaa_forecast.py:202-205 | all or nothing: when every entry converts the list becomes their floats; when a string fails `float()` first, the list is kept unchanged; a non-string entry met before any failure aborts |
| Extract.Scaled | noaa_forecast/get_noaa_forecast.py:217 | every value is multiplied by 1.15078 |
| Extract.Rewrite | noaa_forecast/get_noaa_forecast.py:206-220 | `knots` become `mph` with every value scaled (string values raise); `Fahrenheit` becomes `F`; other units and all Python 3 units pass through |
| Extract.SeriesStored | noaa_forecast/get_forecast.py:199-205 | a series under a known layout is found at `result[k]['parameters'][n]`, replacing a same-named one; all else unchanged |
| Extract.SeriesNotWritten | noaa_forecast/get_noaa_forecast.py:221-227 | a series with an unknown layout key, or without a name, is not written and the result is unchanged |
| Extract.ReadParameters | noaa_forecast/get_noaa_forecast.py:184-227 | the nested parameter loops compute the reference `ParamFold` |
| Extract.GetNdfdWebData | noaa_forecast/get_noaa_forecast.py:156-228 | the post-fetch body computes the reference `Extraction` |
| Extract.VerboseIrrelevant | noaa_forecast/get_noaa_forecast.py:195-214 | Python 2 diagnostics never raise, so `verbose` does not change the result |
| Extract.QuietParams | noaa_forecast/get_noaa_forecast.py:184-227 | the same over the parameter loops |
| Instapost.Readings | noaa_forecast/get_noaa_forecast.py:265 | a series' readings are its floats, or its entries as read, in order |
| Instapost.ZippedFails | noaa_forecast/get_noaa_forecast.py:267 | the timeseries dict cannot be built exactly when a paired stamp is not a string |
| Instapost.ZipPositional | noaa_forecast/get_noaa_forecast.py:267 | distinct stamps pair with values position by position |
| Instapost.SeriesPairs | noaa_forecast/get_forecast.py:245 | equally long lists with distinct stamps give one pair per stamp, in order |
| Instapost.ExtraStampsIgnored | noaa_forecast/get_noaa_forecast.py:267 | `zip` stops at the shorter list: stamps past the values are never paired |
| Instapost.LastStampWins | noaa_forecast/get_noaa_forecast.py:267 | a repeated stamp keeps the value of its last pair |
| Instapost.Pathname | noaa_forecast/get_noaa_forecast.py:269-270 | the pathname exists exactly when the name and its element are both mapped |
| Instapost.AddSeries | noaa_forecast/get_noaa_forecast.py:264-276 | adding one record fails exactly on an unhashable stamp or an unmapped name |
| Instapost.Records | noaa_forecast/get_noaa_forecast.py:262-277 | the two nested loops compute the reference `Assemble` |
| Instapost.AssembleFails | noaa_forecast/get_noaa_forecast.py:262-276 | the site gets nothing exactly when some layout lacks parameters or some series cannot be recorded, wherever it stands |
| Instapost.SeriesFoldFails | noaa_forecast/get_noaa_forecast.py:264-276 | one layout's series fail exactly when one of them cannot be recorded |
| Instapost.AssembleUtc | noaa_forecast/get_noaa_forecast.py:268 | every record built has timezone `UTC` |
| Instapost.LastSeriesWins | noaa_forecast/get_noaa_forecast.py:271-276 | series that reach the same pathname overwrite each other; the last decides the record |
| Instapost.KeptAfter | noaa_forecast/get_noaa_forecast.py:271-276 | a pathname no later series reaches keeps its record |
| Instapost.NdfdToInstapost | noaa_forecast/get_noaa_forecast.py:232-277 | the whole routine computes the reference `Forecast`: request, parse, extract, assemble |
| Instapost.SiteUrlRequestsPaths | noaa_forecast/get_noaa_forecast.py:255-256 | when latitude, longitude and units are free of `L`, `S`, `E`, `U` and `N`, no path key holds `&`, and at least one path key is non-empty: the request asks for exactly the elements the site's paths name, one `x=x` pair each |
| Instapost.ForecastUtc | noaa_forecast/get_forecast.py:240-255 | everything a site ends up with is in UTC |
| Instapost.Python2Stamps | noaa_forecast/get_noaa_forecast.py:170-179 | Python 2 stamps are the UTC conversions of the layout's strings, in order, and fail when one does not convert |
| Instapost.Python2StampUtc | noaa_forecast/get_noaa_forecast.py:171-179 | a Python 2 stamp becomes the local time shifted back by its offset, rendered by `str(datetime)` |
| MergeConfig.Merge | config/merge_config.py:9-22 | the in-place loop computes the reference `MergeFrom`, with the conflicts it reports in order |
| MergeConfig.MergeOne | config/merge_config.py:13-21 | the loop body for one key computes the reference `MergeKey` |
| MergeConfig.MergeKeyKeys | config/merge_config.py:13-21 | one key changes the key order only by appending it when new |
| MergeConfig.MergeKeys | config/merge_config.py:12-22 | no key of `a` disappears, and `a`'s keys keep their order as a prefix |
| MergeConfig.MergeKeySet | config/merge_config.py:12-22 | the merged key set is `keys(a) ∪ keys(b)` |
| MergeConfig.MergeKeyIn | config/merge_config.py:12-22 | a key is in the result exactly when it is in `a` or in the rest of `b` |
| MergeConfig.NewKeyAdded | config/merge_config.py:20-21 | a key only `b` has arrives with `b`'s value |
| MergeConfig.NestedMerged | config/merge_config.py:14-15 | two mappings under one key are merged recursively under the path extended by the key, and stored back |
| MergeConfig.ConflictReported | config/merge_config.py:16-19 | a differing leaf is reported at its dotted path, before later reports, and `a` is unchanged by it |
| MergeConfig.LeafKept | config/merge_config.py:16-19 | a non-mapping value of `a` is never replaced |
| MergeConfig.NoLaterKey | config/merge_config.py:12-22 | a key the rest of `b` does not mention keeps its value |
| MergeConfig.PutSame | config/merge_config.py:16-17 | storing the value a key already holds changes nothing |
| MergeConfig.MergeSelf | config/merge_config.py:14-17 | merging a mapping with an equal copy of itself changes nothing and reports nothing |
| MergeConfig.MergeIntoEmpty | config/merge_config.py:25-34 | merging a document into the empty mapping copies it and reports nothing |
| MergeConfig.Segments | config/merge_config.py:31-39 | cutting the lines always leaves a pending segment |
| MergeConfig.Extend | config/merge_config.py:39 | `raw.append(line)` adds the line to the pending segment only |
| MergeConfig.SegmentsCount | config/merge_config.py:32-36 | there is one segment per separator line, plus the trailing one |
| MergeConfig.SegmentsConcat | config/merge_config.py:31-39 | the cut loses nothing but the separator lines |
| MergeConfig.SegmentsClean | config/merge_config.py:32-39 | no segment holds a separator line |
| MergeConfig.TrailingIgnored | config/merge_config.py:31-40 | lines after the last separator are never merged |
| MergeConfig.SeparatorStep | config/merge_config.py:32-36 | a separator line closes the pending segment, which is merged only when non-empty, and counts once even after an empty segment |
| MergeConfig.LineStep | config/merge_config.py:38-39 | any other line joins the pending segment and leaves documents and count unchanged |
| MergeConfig.MergeAllStops | config/merge_config.py:33-34 | once a document fails to merge, every longer run fails |
| MergeConfig.LoadStops | config/merge_config.py:31-40 | a document that fails stops the whole file |
| MergeConfig.MergeAllAppend | config/merge_config.py:33-34 | one more document is merged into the configuration so far |
| MergeConfig.MergeRaw | config/merge_config.py:34 | loading one segment and merging it computes the reference `MergeDocument` |
| MergeConfig.LoadConfig | config/merge_config.py:24-40 | the loop merges the non-empty segments before each separator, in order, and counts the separator lines |

## Left out

- HTTP requests (`requests.get`) and the XML parser (`minidom.parseString`, with its ExpatError) become the parameter `fetch` of `Instapost.Forecast`; `None` is any failure of either. Under Python 2, `xml2dict` (noaa_forecast/get_noaa_forecast.py:72) first folds the whole answer to ASCII; that fold is also inside `fetch`, so every text and attribute reaching `parse_element` through `xml2dict` is ASCII there. The fold `fold` stands only for the folds inside `parse_element` (lines 46 and 51). The Python 2 U+180E case (`Dom.VowelSeparatorText`) is therefore about `parse_element` on its own and cannot arise through `xml2dict`.
- The Python 2 NFKD/ASCII folding of text and attribute values is the abstract parameter `fold`; the Python 3 script applies none.
- `float()` on a string is the abstract parameter `num`, and numbers are `real`. The knots factor is an exact real product, with no IEEE rounding.
- Comments, processing instructions and CDATA nodes are not modelled; `NodeKind` has only the four node types `parse_element` distinguishes.
- Python 2 dicts iterate in hash order. The model uses insertion order throughout, so under Python 2 the parameter skipped by `list(parameters.keys())[1:]`, and the order of the loops, can differ from the model.
- Diagnostics written to stderr are not modelled. The conflicts `merge` reports are kept as an ordered list of dotted paths; the counts `loadConfig` writes are modelled only as their last value.
- The Python 2 script fetches every site twice (`ndfd_to_instapost`, lines 257 and 259). `fetch` is a function, so both calls give the same answer. A failure of the first call, which the `try` does not guard, aborts the site.
- Under Python 3 a failed fetch leaves `data_dict` unbound and the following loop raises NameError; the model treats this like any other aborted site.
- `main`, argparse, the JSON and YAML output, the per-site `try`/`except` and the global `ndfd_param_dict` are not modelled. The name-to-element map is the parameter `names`.
- config/make_configs.py is not part of this model: it fetches a station registry over the network and writes files.
- `yaml.safe_load` is the abstract parameter `load`. A document that is not a mapping makes the model abort. Python raises TypeError for most of them too: a document of only blank or comment lines loads as `None`, and a non-empty string fails at `b[key]`. Two cases differ, and neither occurs in these configuration files: an empty list or empty string leaves `cfg` unchanged in Python; a list indexable by its own items merges index to item (a document `- 0` adds `{0: 0}`).
- YAML scalars are kept as strings compared for equality, and keys are strings. `str(key)` of a non-string key is not modelled.
- `merge` mutates `a` in place. The model passes values and returns the merged mapping, so aliasing is not captured: when a YAML anchor and alias (`&a` … `*a`) share one mapping inside a document, a later document merged into one occurrence changes every occurrence in Python, but only that one in the model.
- `loadConfig`'s verbose branch (lines 26-27) is not modelled: it raises NameError on the undefined `output`. Opening the file is not modelled either; the model receives its lines.
- MergeConfig.LoadConfig: the count is stated only when the configuration loads. When a document fails, Python raises and the count is never returned.
- Latitude and longitude are strings, as the configuration supplies them. `paths` and the name map are string-to-string dicts.
- NdfdUrl.CreateNdfdUrlFills: the URL is characterised only for coordinates, units and dates free of the placeholders' first letters (`L`, `S`, `E`, `U`, `N`). For other values a later `replace` can match inside an earlier value; the model computes that result but no lemma describes it. The element names need no such condition, since their text is put in by the last `replace`.
- NdfdUrl.RequestUrlFills: characterised under the same condition, for the default dates.
- Instapost.SiteUrlRequestsPaths: characterised under the same condition, for `&`-free path keys of which at least one is non-empty.
