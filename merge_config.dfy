/** The multi-document configuration merge: `merge` folds one YAML mapping
    into another, recursing into nested mappings and reporting conflicting
    leaves; `loadConfig` cuts a file into documents at `---` lines and merges
    them in order. */
module MergeConfig {

  import opened Wrappers
  import opened Text
  import opened Dicts

  /** A loaded YAML value: a mapping (insertion-ordered) or any other value,
      compared only for equality. */
  datatype Cfg = Dict(entries: seq<(string, Cfg)>) | Leaf(value: string)

  type Entries = seq<(string, Cfg)>

  /** What one call of `merge` produces: the merged mapping and the dotted
      paths it reported as conflicts, in order. */
  datatype Merged = Merged(entries: Entries, conflicts: seq<string>)

  /** The conflicts of `m`, after earlier ones. */
  function After(log: seq<string>, m: Merged): Merged
  {
    Merged(m.entries, log + m.conflicts)
  }

  /** `'.'.join(path)`. */
  function Dotted(path: seq<string>): string
  {
    Join(".", path)
  }

  // ---------------------------------------------------------------------
  // merge
  // ---------------------------------------------------------------------

  /** One key of `b` with its value, merged into `a`. */
  function MergeKey(a: Entries, key: string, value: Cfg, path: seq<string>): Merged
    decreases value, 1
  {
    if !HasKey(a, key) then Merged(Put(a, key, value), [])
    else if Get(a, key).value.Dict? && value.Dict? then
      Nested(a, key, MergeFrom(Get(a, key).value.entries, value, 0, path + [key]))
    else if Get(a, key).value == value then Merged(a, [])
    else Merged(a, [Dotted(path + [key])])
  }

  /** The nested mapping stored back under its key, in place. */
  function Nested(a: Entries, key: string, sub: Merged): Merged
  {
    Merged(Put(a, key, Dict(sub.entries)), sub.conflicts)
  }

  /** The keys `b.entries[i..]` still to be visited, merged into `a`. */
  function MergeFrom(a: Entries, b: Cfg, i: nat, path: seq<string>): Merged
    requires b.Dict? && i <= |b.entries|
    decreases b, 0, |b.entries| - i
  {
    if i == |b.entries| then Merged(a, [])
    else
      assert b.entries[i] in b.entries;
      After(MergeKey(a, b.entries[i].0, b.entries[i].1, path).conflicts,
            MergeFrom(MergeKey(a, b.entries[i].0, b.entries[i].1, path).entries, b, i + 1, path))
  }

  /** `merge(a, b, path)`: each key of `b` in order. A new key is added with
      `b`'s value; two mappings are merged recursively under the longer
      path; an equal leaf is left alone; anything else keeps `a`'s value
      and reports the dotted path. */
  method Merge(a: Entries, b: Cfg, path: seq<string>) returns (r: Entries, conflicts: seq<string>)
    requires b.Dict?
    ensures Merged(r, conflicts) == MergeFrom(a, b, 0, path)
    decreases b, 0
  {
    r := a;
    conflicts := [];
    var i := 0;
    while i < |b.entries|
      invariant 0 <= i <= |b.entries|
      invariant MergeFrom(a, b, 0, path) == After(conflicts, MergeFrom(r, b, i, path))
    {
      assert b.entries[i] in b.entries;
      var added;
      r, added := MergeOne(r, b.entries[i].0, b.entries[i].1, path);
      conflicts := conflicts + added;
      i := i + 1;
    }
  }

  /** The body of the loop in `merge` for one key of `b`. */
  method MergeOne(a: Entries, key: string, value: Cfg, path: seq<string>) returns (r: Entries, conflicts: seq<string>)
    ensures Merged(r, conflicts) == MergeKey(a, key, value, path)
    decreases value, 1
  {
    r, conflicts := a, [];
    if HasKey(a, key) {
      var current := Get(a, key).value;
      if current.Dict? && value.Dict? {
        var sub;
        sub, conflicts := Merge(current.entries, value, path + [key]);
        r := Put(a, key, Dict(sub));
      } else if current != value {
        conflicts := [Dotted(path + [key])];
      }
    } else {
      r := Put(a, key, value);
    }
  }

  // ---------------------------------------------------------------------
  // Properties of merge
  // ---------------------------------------------------------------------

  /** A mapping whose keys, and the keys of every nested mapping, are
      distinct: what a Python dict is. */
  predicate WellFormed(c: Cfg)
    decreases c
  {
    match c
    case Leaf(_) => true
    case Dict(es) =>
      DistinctKeys(es) && forall i | 0 <= i < |es| :: (assert es[i] in es; WellFormed(es[i].1))
  }

  /** One key changes the key order only by appending a new key. */
  lemma MergeKeyKeys(a: Entries, key: string, value: Cfg, path: seq<string>)
    ensures Keys(MergeKey(a, key, value, path).entries) == if HasKey(a, key) then Keys(a) else Keys(a) + [key]
  {
    if !HasKey(a, key) {
      PutKeys(a, key, value);
    } else if Get(a, key).value.Dict? && value.Dict? {
      PutKeys(a, key, Dict(MergeFrom(Get(a, key).value.entries, value, 0, path + [key]).entries));
    }
  }

  /** No key disappears and the keys of `a` keep their order. */
  lemma {:induction false} MergeKeys(a: Entries, b: Cfg, i: nat, path: seq<string>)
    requires b.Dict? && i <= |b.entries|
    ensures |Keys(a)| <= |Keys(MergeFrom(a, b, i, path).entries)|
    ensures Keys(MergeFrom(a, b, i, path).entries)[..|Keys(a)|] == Keys(a)
    decreases |b.entries| - i
  {
    if i < |b.entries| {
      var key := b.entries[i].0;
      var next := MergeKey(a, key, b.entries[i].1, path).entries;
      MergeKeyKeys(a, key, b.entries[i].1, path);
      MergeKeys(next, b, i + 1, path);
      assert Keys(next)[..|Keys(a)|] == Keys(a);
      var r := Keys(MergeFrom(a, b, i, path).entries);
      assert r[..|Keys(next)|][..|Keys(a)|] == r[..|Keys(a)|];
    }
  }

  /** The keys after merging are those of `a` and those of the rest of `b`. */
  lemma MergeKeySet(a: Entries, b: Cfg, i: nat, path: seq<string>)
    requires b.Dict? && i <= |b.entries|
    ensures forall k :: k in Keys(MergeFrom(a, b, i, path).entries)
                        <==> k in Keys(a) || exists j | i <= j < |b.entries| :: b.entries[j].0 == k
  {
    forall k ensures k in Keys(MergeFrom(a, b, i, path).entries)
                     <==> k in Keys(a) || exists j | i <= j < |b.entries| :: b.entries[j].0 == k {
      MergeKeyIn(a, b, i, path, k);
    }
  }

  lemma {:induction false} MergeKeyIn(a: Entries, b: Cfg, i: nat, path: seq<string>, k: string)
    requires b.Dict? && i <= |b.entries|
    ensures k in Keys(MergeFrom(a, b, i, path).entries)
            <==> k in Keys(a) || exists j | i <= j < |b.entries| :: b.entries[j].0 == k
    decreases |b.entries| - i
  {
    if i < |b.entries| {
      var key := b.entries[i].0;
      var next := MergeKey(a, key, b.entries[i].1, path).entries;
      MergeKeyKeys(a, key, b.entries[i].1, path);
      MergeKeyIn(next, b, i + 1, path, k);
      assert Keys(MergeFrom(a, b, i, path).entries) == Keys(MergeFrom(next, b, i + 1, path).entries);
      if k == key {
        if !HasKey(a, key) {
          assert Keys(next)[|Keys(a)|] == key;
        }
        KeysHasKey(a);
      } else {
        assert k in Keys(next) <==> k in Keys(a);
        if exists j | i <= j < |b.entries| :: b.entries[j].0 == k {
          var j :| i <= j < |b.entries| && b.entries[j].0 == k;
          assert j != i;
        }
      }
    }
  }

  /** A key of `a` whose value is not a mapping keeps it, whatever `b` holds
      under that key. */
  lemma {:induction false} LeafKept(a: Entries, b: Cfg, i: nat, path: seq<string>, k: string)
    requires b.Dict? && i <= |b.entries|
    requires HasKey(a, k) && !Get(a, k).value.Dict?
    ensures Get(MergeFrom(a, b, i, path).entries, k) == Get(a, k)
    decreases |b.entries| - i
  {
    if i < |b.entries| {
      LeafKept(MergeKey(a, b.entries[i].0, b.entries[i].1, path).entries, b, i + 1, path, k);
    }
  }

  /** A key the rest of `b` does not mention keeps its value. */
  lemma {:induction false} NoLaterKey(a: Entries, b: Cfg, i: nat, path: seq<string>, k: string)
    requires b.Dict? && i <= |b.entries|
    requires forall j | i <= j < |b.entries| :: b.entries[j].0 != k
    ensures Get(MergeFrom(a, b, i, path).entries, k) == Get(a, k)
    decreases |b.entries| - i
  {
    if i < |b.entries| {
      NoLaterKey(MergeKey(a, b.entries[i].0, b.entries[i].1, path).entries, b, i + 1, path, k);
    }
  }

  /** A key only `b` has arrives with `b`'s value. */
  lemma {:induction false} NewKeyAdded(a: Entries, b: Cfg, i: nat, path: seq<string>, j: nat)
    requires b.Dict? && DistinctKeys(b.entries) && i <= j < |b.entries|
    requires !HasKey(a, b.entries[j].0)
    ensures Get(MergeFrom(a, b, i, path).entries, b.entries[j].0) == Some(b.entries[j].1)
    decreases |b.entries| - i
  {
    var next := MergeKey(a, b.entries[i].0, b.entries[i].1, path).entries;
    if i == j {
      NoLaterKey(next, b, i + 1, path, b.entries[j].0);
    } else {
      assert b.entries[i].0 != b.entries[j].0;
      assert Get(next, b.entries[j].0) == Get(a, b.entries[j].0);
      NewKeyAdded(next, b, i + 1, path, j);
    }
  }

  /** Two mappings under one key are merged recursively under the longer
      path, and the nested merge is stored back under the key. */
  lemma NestedMerged(a: Entries, b: Cfg, i: nat, path: seq<string>)
    requires b.Dict? && i < |b.entries|
    requires HasKey(a, b.entries[i].0) && Get(a, b.entries[i].0).value.Dict? && b.entries[i].1.Dict?
    ensures MergeKey(a, b.entries[i].0, b.entries[i].1, path).conflicts
            == MergeFrom(Get(a, b.entries[i].0).value.entries, b.entries[i].1, 0, path + [b.entries[i].0]).conflicts
    ensures Get(MergeKey(a, b.entries[i].0, b.entries[i].1, path).entries, b.entries[i].0)
            == Some(Dict(MergeFrom(Get(a, b.entries[i].0).value.entries, b.entries[i].1, 0, path + [b.entries[i].0]).entries))
  {
  }

  /** A differing leaf is reported at the dotted path of its key, before
      anything the remaining keys report, and `a` keeps its value. */
  lemma ConflictReported(a: Entries, b: Cfg, i: nat, path: seq<string>)
    requires b.Dict? && i < |b.entries|
    requires HasKey(a, b.entries[i].0)
    requires !(Get(a, b.entries[i].0).value.Dict? && b.entries[i].1.Dict?)
    requires Get(a, b.entries[i].0).value != b.entries[i].1
    ensures MergeFrom(a, b, i, path).conflicts == [Dotted(path + [b.entries[i].0])] + MergeFrom(a, b, i + 1, path).conflicts
    ensures MergeFrom(a, b, i, path).entries == MergeFrom(a, b, i + 1, path).entries
  {
  }

  /** `PutSame`: storing the value a key already has changes nothing. */
  lemma {:induction false} PutSame(d: Entries, k: string, v: Cfg)
    requires Get(d, k) == Some(v)
    ensures Put(d, k, v) == d
    decreases |d|
  {
    if d[0].0 != k {
      assert d == [d[0]] + d[1..];
      ConsFacts(d[0], d[1..]);
      PutSame(d[1..], k, v);
    }
  }

  /** Merging a well-formed mapping with an equal copy of itself changes
      nothing and reports nothing. */
  lemma {:induction false} MergeSelf(a: Entries, i: nat, path: seq<string>)
    requires WellFormed(Dict(a)) && i <= |a|
    ensures MergeFrom(a, Dict(a), i, path) == Merged(a, [])
    decreases Dict(a), 0, |a| - i
  {
    if i < |a| {
      var key := a[i].0;
      var value := a[i].1;
      assert a[i] in a;
      assert HasKey(a, key);
      assert Get(a, key) == Some(value) by {
        GetDistinct(a, i);
      }
      if value.Dict? {
        assert WellFormed(value);
        MergeSelf(value.entries, 0, path + [key]);
        PutSame(a, key, Dict(value.entries));
      }
      assert MergeKey(a, key, value, path) == Merged(a, []);
      MergeSelf(a, i + 1, path);
    }
  }

  /** Merging into the empty mapping, as `loadConfig` does with its first
      document, copies the document and reports nothing. */
  lemma {:induction false} MergeIntoEmpty(b: Cfg, i: nat, path: seq<string>)
    requires b.Dict? && DistinctKeys(b.entries) && i <= |b.entries|
    ensures MergeFrom(b.entries[..i], b, i, path) == Merged(b.entries, [])
    decreases |b.entries| - i
  {
    if i == |b.entries| {
      assert b.entries[..i] == b.entries;
    } else {
      var done := b.entries[..i];
      PutNew(done, b.entries[i].0, b.entries[i].1);
      assert done + [b.entries[i]] == b.entries[..i + 1];
      MergeIntoEmpty(b, i + 1, path);
    }
  }

  // ---------------------------------------------------------------------
  // loadConfig
  // ---------------------------------------------------------------------

  /** `line.strip() == "---"`. */
  predicate Separator(line: string)
  {
    Strip(line) == "---"
  }

  /** The lines cut at separator lines, separators dropped: one segment
      more than there are separators, the last one after the last
      separator. */
  function Segments(isSep: string -> bool, lines: seq<string>): (r: seq<seq<string>>)
    ensures |r| >= 1
    decreases |lines|
  {
    if lines == [] then [[]]
    else if isSep(lines[|lines| - 1]) then Segments(isSep, lines[..|lines| - 1]) + [[]]
    else Extend(Segments(isSep, lines[..|lines| - 1]), lines[|lines| - 1])
  }

  /** `raw.append(line)` on the last segment. */
  function Extend(segs: seq<seq<string>>, line: string): (r: seq<seq<string>>)
    requires |segs| >= 1
    ensures |r| == |segs| && r[..|r| - 1] == segs[..|segs| - 1] && r[|r| - 1] == segs[|segs| - 1] + [line]
  {
    segs[..|segs| - 1] + [segs[|segs| - 1] + [line]]
  }

  function SeparatorCount(isSep: string -> bool, lines: seq<string>): nat
    decreases |lines|
  {
    if lines == [] then 0
    else SeparatorCount(isSep, lines[..|lines| - 1]) + if isSep(lines[|lines| - 1]) then 1 else 0
  }

  function Concat(parts: seq<seq<string>>): seq<string>
    decreases |parts|
  {
    if parts == [] then [] else Concat(parts[..|parts| - 1]) + parts[|parts| - 1]
  }

  function NotSeparators(isSep: string -> bool, lines: seq<string>): seq<string>
    decreases |lines|
  {
    if lines == [] then []
    else NotSeparators(isSep, lines[..|lines| - 1]) + if isSep(lines[|lines| - 1]) then [] else [lines[|lines| - 1]]
  }

  /** There is one segment per separator, plus the trailing one. */
  lemma {:induction false} SegmentsCount(isSep: string -> bool, lines: seq<string>)
    ensures |Segments(isSep, lines)| == SeparatorCount(isSep, lines) + 1
    decreases |lines|
  {
    if lines != [] {
      SegmentsCount(isSep, lines[..|lines| - 1]);
    }
  }

  /** The cut loses nothing but the separators. */
  lemma {:induction false} SegmentsConcat(isSep: string -> bool, lines: seq<string>)
    ensures Concat(Segments(isSep, lines)) == NotSeparators(isSep, lines)
    decreases |lines|
  {
    if lines != [] {
      var init := lines[..|lines| - 1];
      var last := lines[|lines| - 1];
      SegmentsConcat(isSep, init);
      var prev := Segments(isSep, init);
      if isSep(last) {
        assert (prev + [[]])[..|prev|] == prev;
      } else {
        var front := prev[..|prev| - 1];
        assert prev == front + [Last(prev)];
        assert Concat(prev) == Concat(front) + Last(prev) by {
          assert prev[..|prev| - 1] == front;
        }
        var r := Extend(prev, last);
        assert Concat(r) == Concat(front) + (Last(prev) + [last]);
      }
    }
  }

  /** No segment holds a separator. */
  lemma {:induction false} SegmentsClean(isSep: string -> bool, lines: seq<string>)
    ensures forall s, j | 0 <= s < |Segments(isSep, lines)| && 0 <= j < |Segments(isSep, lines)[s]| ::
      !isSep(Segments(isSep, lines)[s][j])
    decreases |lines|
  {
    if lines != [] {
      var init := lines[..|lines| - 1];
      var last := lines[|lines| - 1];
      SegmentsClean(isSep, init);
      var prev := Segments(isSep, init);
      var r := Segments(isSep, lines);
      forall s, j | 0 <= s < |r| && 0 <= j < |r[s]| ensures !isSep(r[s][j]) {
        if s < |prev| - 1 || (isSep(last) && s < |prev|) {
          assert r[s] == prev[s];
        } else if !isSep(last) && j < |Last(prev)| {
          assert r[s][j] == prev[|prev| - 1][j];
        }
      }
    }
  }

  /** The documents that get merged: every segment but the last, in order,
      empty ones skipped. */
  function Documents(isSep: string -> bool, lines: seq<string>): seq<seq<string>>
  {
    NonEmpty(Segments(isSep, lines)[..|Segments(isSep, lines)| - 1])
  }

  function NonEmpty(segs: seq<seq<string>>): seq<seq<string>>
    decreases |segs|
  {
    if segs == [] then []
    else NonEmpty(segs[..|segs| - 1]) + if segs[|segs| - 1] == [] then [] else [segs[|segs| - 1]]
  }

  /** Lines after the last separator are never merged. */
  lemma {:induction false} TrailingIgnored(isSep: string -> bool, lines: seq<string>, tail: seq<string>)
    requires forall j | 0 <= j < |tail| :: !isSep(tail[j])
    ensures Documents(isSep, lines + tail) == Documents(isSep, lines)
    decreases |tail|
  {
    if tail == [] {
      assert lines + tail == lines;
    } else {
      var l := lines + tail[..|tail| - 1];
      var x := tail[|tail| - 1];
      TrailingIgnored(isSep, lines, tail[..|tail| - 1]);
      assert lines + tail == l + [x];
      assert (l + [x])[..|l|] == l;
      assert Segments(isSep, l + [x]) == Extend(Segments(isSep, l), x);
    }
  }

  /** Merging the loaded documents in order. `load` stands for
      `yaml.safe_load`: `None` when the document does not load. A document
      that is not a mapping makes `merge` raise. */
  function MergeAll(load: string -> Option<Cfg>, cfg: Entries, docs: seq<seq<string>>): Option<Merged>
    decreases |docs|
  {
    if docs == [] then Some(Merged(cfg, []))
    else if MergeAll(load, cfg, docs[..|docs| - 1]).None? then None
    else MergeDocument(load, MergeAll(load, cfg, docs[..|docs| - 1]).value, docs[|docs| - 1])
  }

  /** `cfg = merge(cfg, yaml.safe_load("".join(raw)))`. */
  function MergeDocument(load: string -> Option<Cfg>, m: Merged, raw: seq<string>): Option<Merged>
  {
    if load(Join("", raw)).None? || !load(Join("", raw)).value.Dict? then None
    else Some(After(m.conflicts, MergeFrom(m.entries, load(Join("", raw)).value, 0, [])))
  }

  /** A separator line closes the pending segment, which becomes a
      document when it is not empty. */
  lemma SeparatorStep(isSep: string -> bool, lines: seq<string>, i: nat)
    requires i < |lines| && isSep(lines[i])
    ensures Last(Segments(isSep, lines[..i + 1])) == []
    ensures Last(Segments(isSep, lines[..i])) == [] ==> Documents(isSep, lines[..i + 1]) == Documents(isSep, lines[..i])
    ensures Last(Segments(isSep, lines[..i])) != [] ==>
      Documents(isSep, lines[..i + 1]) == Documents(isSep, lines[..i]) + [Last(Segments(isSep, lines[..i]))]
    ensures SeparatorCount(isSep, lines[..i + 1]) == SeparatorCount(isSep, lines[..i]) + 1
  {
    var l := lines[..i + 1];
    assert l[..i] == lines[..i] && l[i] == lines[i];
    var prev := Segments(isSep, lines[..i]);
    assert (prev + [[]])[..|prev|] == prev;
  }

  /** Any other line joins the pending segment. */
  lemma LineStep(isSep: string -> bool, lines: seq<string>, i: nat)
    requires i < |lines| && !isSep(lines[i])
    ensures Last(Segments(isSep, lines[..i + 1])) == Last(Segments(isSep, lines[..i])) + [lines[i]]
    ensures Documents(isSep, lines[..i + 1]) == Documents(isSep, lines[..i])
    ensures SeparatorCount(isSep, lines[..i + 1]) == SeparatorCount(isSep, lines[..i])
  {
    var l := lines[..i + 1];
    assert l[..i] == lines[..i] && l[i] == lines[i];
  }

  /** The pending segment. */
  function Last(segs: seq<seq<string>>): seq<string>
    requires |segs| >= 1
  {
    segs[|segs| - 1]
  }

  /** Once a document fails, so does every longer run. */
  lemma {:induction false} MergeAllStops(load: string -> Option<Cfg>, cfg: Entries, docs: seq<seq<string>>,
                                         more: seq<seq<string>>)
    requires MergeAll(load, cfg, docs).None?
    ensures MergeAll(load, cfg, docs + more).None?
    decreases |more|
  {
    if more == [] {
      assert docs + more == docs;
    } else {
      MergeAllStops(load, cfg, docs, more[..|more| - 1]);
      assert (docs + more)[..|docs + more| - 1] == docs + more[..|more| - 1];
    }
  }

  /** A document that fails stops the whole file. */
  lemma {:induction false} LoadStops(isSep: string -> bool, load: string -> Option<Cfg>, lines: seq<string>, i: nat)
    requires i <= |lines| && MergeAll(load, [], Documents(isSep, lines[..i])).None?
    ensures MergeAll(load, [], Documents(isSep, lines)).None?
    decreases |lines| - i
  {
    if i == |lines| {
      assert lines[..i] == lines;
    } else {
      var before := Documents(isSep, lines[..i]);
      if !isSep(lines[i]) {
        LineStep(isSep, lines, i);
      } else if Last(Segments(isSep, lines[..i])) == [] {
        SeparatorStep(isSep, lines, i);
      } else {
        SeparatorStep(isSep, lines, i);
        MergeAllStops(load, [], before, [Last(Segments(isSep, lines[..i]))]);
      }
      LoadStops(isSep, load, lines, i + 1);
    }
  }

  /** One more document on the run. */
  lemma MergeAllAppend(load: string -> Option<Cfg>, cfg: Entries, docs: seq<seq<string>>, raw: seq<string>)
    ensures MergeAll(load, cfg, docs + [raw])
            == if MergeAll(load, cfg, docs).None? then None else MergeDocument(load, MergeAll(load, cfg, docs).value, raw)
  {
    assert (docs + [raw])[..|docs|] == docs;
  }

  /** `loadConfig` over the file's lines: the merged configuration (with the
      conflicts `merge` reported) and the last count written, one per
      separator line. */
  method LoadConfig(lines: seq<string>, load: string -> Option<Cfg>)
    returns (cfg: Option<Merged>, count: nat)
    ensures cfg == MergeAll(load, [], Documents(Separator, lines))
    ensures cfg.Some? ==> count == SeparatorCount(Separator, lines)
  {
    var state := Merged([], []);
    var raw: seq<string> := [];
    count := 0;
    var i := 0;
    while i < |lines|
      invariant 0 <= i <= |lines|
      invariant raw == Last(Segments(Separator, lines[..i]))
      invariant MergeAll(load, [], Documents(Separator, lines[..i])) == Some(state)
      invariant count == SeparatorCount(Separator, lines[..i])
    {
      var line := lines[i];
      if Separator(line) {
        SeparatorStep(Separator, lines, i);
        if raw != [] {
          MergeAllAppend(load, [], Documents(Separator, lines[..i]), raw);
          var next := MergeRaw(load, state, raw);
          if next.None? {
            LoadStops(Separator, load, lines, i + 1);
            return None, count;
          }
          state := next.value;
        }
        raw := [];
        count := count + 1;
      } else {
        LineStep(Separator, lines, i);
        raw := raw + [line];
      }
      i := i + 1;
    }
    assert lines[..i] == lines;
    cfg := Some(state);
  }

  /** Loading one pending segment and merging it into the configuration so far. */
  method MergeRaw(load: string -> Option<Cfg>, m: Merged, raw: seq<string>) returns (r: Option<Merged>)
    ensures r == MergeDocument(load, m, raw)
  {
    var doc := load(Join("", raw));
    if doc.None? || !doc.value.Dict? {
      return None;
    }
    var entries, conflicts := Merge(m.entries, doc.value, []);
    r := Some(Merged(entries, m.conflicts + conflicts));
  }
}
