/** The XML-to-dictionary normaliser `parse_element` of both NDFD scripts
    (noaa_forecast/get_noaa_forecast.py:40-68, noaa_forecast/get_forecast.py:37-63).

    A minidom tree is modelled by `Node`; the nested dicts, lists and strings
    that `parse_element` returns are modelled by `Value`. The two scripts
    differ in two places, which are parameters here:
    - `fold`: the NFKD/ASCII folding that the Python 2 script applies to text
      and attribute values (identity in the Python 3 script);
    - `py2`: which interpreter runs the script. It decides two things:
      whether `dict_data.keys() == ["#text"]` can hold (under Python 2
      `keys()` is a list and an element holding only text collapses to that
      text; under Python 3 `keys()` is a view that never equals a list, so
      leaves stay wrapped as `{"#text": v}`), and which characters
      `strip()` treats as whitespace (`Text.IsSpace`). */
module Dom {

  import opened Wrappers
  import opened Text
  import opened Dicts

  /** The node types `parse_element` distinguishes. */
  datatype NodeKind = TextNode | ElementNode | DocumentNode | DocumentTypeNode

  /** A DOM node: `nodeType`, `nodeName`, `data` (text nodes), the attribute
      items in document order and `childNodes`. */
  datatype Node = Node(kind: NodeKind, name: string, data: string,
                       attributes: seq<(string, string)>, children: seq<Node>)

  /** What `parse_element` builds: a string, a dict (insertion-ordered) or a
      list. */
  datatype Value = Str(s: string) | Obj(entries: seq<(string, Value)>) | List(items: seq<Value>)

  type Entries = seq<(string, Value)>

  /** The empty dict `{}`, which `parse_element` never stores in a parent. */
  const Empty: Value := Obj([])

  /** `x if isinstance(x, list) else [x]`: the scalar-or-list normalisation
      the extraction code applies before iterating. */
  function AsList(v: Value): seq<Value>
  {
    if v.List? then v.items else [v]
  }

  /** A second child under an existing name: `append` to a list, or build the
      pair `[previous, new]` when `append` raises AttributeError. */
  function Accumulate(prev: Value, v: Value): Value
  {
    if prev.List? then List(prev.items + [v]) else List([prev, v])
  }

  /** Adds one parsed child `(child_name, child_dict)` to `dict_data`. */
  function Insert(d: Entries, child: (string, Value)): Entries
  {
    if child.1 == Empty then d
    else match Get(d, child.0)
      case Some(prev) => Put(d, child.0, Accumulate(prev, child.1))
      case None => Put(d, child.0, child.1)
  }

  /** The children loop: `Insert` of every parsed child, in document order. */
  function InsertAll(d: Entries, cs: seq<(string, Value)>): Entries
    decreases |cs|
  {
    if cs == [] then d else Insert(InsertAll(d, cs[..|cs| - 1]), cs[|cs| - 1])
  }

  /** The attribute loop: `dict_data["@" + name] = value` for every item. */
  function AttrEntries(attrs: seq<(string, string)>, fold: string -> string): Entries
    decreases |attrs|
  {
    if attrs == [] then []
    else
      var a := attrs[|attrs| - 1];
      Put(AttrEntries(attrs[..|attrs| - 1], fold), "@" + a.0, Str(fold(a.1)))
  }

  /** The final step: a dict whose only key is `#text` becomes that value
      when the interpreter lets the comparison succeed. */
  function Collapse(d: Entries, py2: bool): Value
  {
    if py2 && Keys(d) == ["#text"] then d[0].1 else Obj(d)
  }

  /** The dict an element or document node builds before the collapse step:
      its attributes (elements only), then its non-empty children. */
  function EntriesOf(n: Node, fold: string -> string, py2: bool): Entries
    decreases n, 1
  {
    var base := if n.kind == ElementNode then AttrEntries(n.attributes, fold) else [];
    InsertAll(base, ParsedChildren(n, fold, py2))
  }

  /** `parse_element(child)` for every child, in document order. */
  function ParsedChildren(n: Node, fold: string -> string, py2: bool): seq<(string, Value)>
    decreases n, 0
  {
    seq(|n.children|, i requires 0 <= i < |n.children| => Parse(n.children[i], fold, py2))
  }

  /** `parse_element(element)`: the pair `(nodeName, dict_data)`. */
  function Parse(n: Node, fold: string -> string, py2: bool): (string, Value)
    decreases n, 2
  {
    (n.name,
     match n.kind
     case TextNode => if IsBlank(n.data, py2) then Empty else Str(fold(n.data))
     case DocumentTypeNode => Empty
     case _ => Collapse(EntriesOf(n, fold, py2), py2))
  }

  /** `parse_element` as the source runs it: a loop over the attributes and a
      loop over the children, each child converted by a recursive call. */
  method ParseElement(n: Node, fold: string -> string, py2: bool) returns (name: string, value: Value)
    ensures (name, value) == Parse(n, fold, py2)
    decreases n
  {
    name := n.name;
    if n.kind == TextNode {
      value := Empty;
      if !IsBlank(n.data, py2) {
        value := Str(fold(n.data));
      }
      return;
    }
    var d: Entries := [];
    if n.kind == ElementNode {
      for i := 0 to |n.attributes|
        invariant d == AttrEntries(n.attributes[..i], fold)
      {
        var item := n.attributes[i];
        d := Put(d, "@" + item.0, Str(fold(item.1)));
        assert n.attributes[..i + 1][..i] == n.attributes[..i];
      }
      assert n.attributes[..|n.attributes|] == n.attributes;
    }
    if n.kind == DocumentTypeNode {
      value := Obj(d);
      return;
    }
    ghost var base := d;
    ghost var parsed := ParsedChildren(n, fold, py2);
    for i := 0 to |n.children|
      invariant d == InsertAll(base, parsed[..i])
    {
      var childName, childValue := ParseElement(n.children[i], fold, py2);
      var prev := Get(d, childName);
      if prev.Some? {
        if childValue != Empty {
          if prev.value.List? {
            d := Put(d, childName, List(prev.value.items + [childValue]));
          } else {
            d := Put(d, childName, List([prev.value, childValue]));
          }
        }
      } else if childValue != Empty {
        d := Put(d, childName, childValue);
      }
      assert parsed[..i + 1][..i] == parsed[..i];
    }
    assert parsed[..|n.children|] == parsed;
    if py2 && Keys(d) == ["#text"] {
      value := d[0].1;
    } else {
      value := Obj(d);
    }
  }

  // ---------------------------------------------------------------------
  // Properties of the normaliser
  // ---------------------------------------------------------------------

  /** Every value of a parsed tree has the shape the source builds: dicts
      have distinct keys and never hold `{}`, and lists have at least two
      items, none of them `{}`. */
  predicate WellFormed(v: Value)
  {
    match v
    case Str(_) => true
    case Obj(es) => DistinctKeys(es) && forall i | 0 <= i < |es| :: es[i].1 != Empty && WellFormed(es[i].1)
    case List(xs) => |xs| >= 2 && forall i | 0 <= i < |xs| :: xs[i] != Empty && WellFormed(xs[i])
  }

  /** The entries of a well-formed dict. */
  predicate GoodEntries(es: Entries)
  {
    WellFormed(Obj(es))
  }

  /** After `Put`, each entry is the new one or an entry that was there. */
  lemma {:induction false} PutEntries<V>(d: seq<(string, V)>, k: string, v: V)
    ensures forall i | 0 <= i < |Put(d, k, v)| :: Put(d, k, v)[i] == (k, v) || Put(d, k, v)[i] in d
  {
    if d != [] && d[0].0 != k {
      PutEntries(d[1..], k, v);
      assert Put(d, k, v) == [d[0]] + Put(d[1..], k, v);
      forall i | 0 <= i < |Put(d, k, v)| ensures Put(d, k, v)[i] == (k, v) || Put(d, k, v)[i] in d {
        if i > 0 {
          var e := Put(d[1..], k, v)[i - 1];
          assert e == (k, v) || e in d[1..];
        }
      }
    }
  }

  /** The value `Get` returns is stored in some entry. */
  lemma {:induction false} GetEntry<V>(d: seq<(string, V)>, k: string) returns (i: nat)
    requires HasKey(d, k)
    ensures i < |d| && d[i] == (k, Get(d, k).value)
  {
    if d[0].0 == k {
      i := 0;
    } else {
      ConsFacts(d[0], d[1..]);
      assert d == [d[0]] + d[1..];
      var j := GetEntry(d[1..], k);
      i := j + 1;
    }
  }

  lemma PutGood(d: Entries, k: string, v: Value)
    requires GoodEntries(d) && v != Empty && WellFormed(v)
    ensures GoodEntries(Put(d, k, v))
  {
    PutEntries(d, k, v);
    PutDistinct(d, k, v);
  }

  lemma InsertGood(d: Entries, c: (string, Value))
    requires GoodEntries(d) && (c.1 == Empty || WellFormed(c.1))
    ensures GoodEntries(Insert(d, c))
  {
    if c.1 != Empty && HasKey(d, c.0) {
      var i := GetEntry(d, c.0);
      var prev := Get(d, c.0).value;
      assert prev != Empty && WellFormed(prev);
      var acc := Accumulate(prev, c.1);
      if prev.List? {
        assert acc.items == prev.items + [c.1];
        assert forall j | 0 <= j < |prev.items| :: acc.items[j] == prev.items[j];
      } else {
        assert acc.items == [prev, c.1];
      }
      PutGood(d, c.0, acc);
    } else if c.1 != Empty {
      PutGood(d, c.0, c.1);
    }
  }

  lemma {:induction false} InsertAllGood(d: Entries, cs: seq<(string, Value)>)
    requires GoodEntries(d)
    requires forall i | 0 <= i < |cs| :: cs[i].1 == Empty || WellFormed(cs[i].1)
    ensures GoodEntries(InsertAll(d, cs))
    decreases |cs|
  {
    if cs != [] {
      InsertAllGood(d, cs[..|cs| - 1]);
      InsertGood(InsertAll(d, cs[..|cs| - 1]), cs[|cs| - 1]);
    }
  }

  lemma {:induction false} AttrEntriesGood(attrs: seq<(string, string)>, fold: string -> string)
    ensures GoodEntries(AttrEntries(attrs, fold))
    decreases |attrs|
  {
    if attrs != [] {
      var a := attrs[|attrs| - 1];
      AttrEntriesGood(attrs[..|attrs| - 1], fold);
      PutGood(AttrEntries(attrs[..|attrs| - 1], fold), "@" + a.0, Str(fold(a.1)));
    }
  }

  /** Whatever the input tree, the normaliser yields a well-formed value. */
  lemma {:induction false} ParseWellFormed(n: Node, fold: string -> string, py2: bool)
    ensures WellFormed(Parse(n, fold, py2).1)
    decreases n
  {
    if n.kind == ElementNode || n.kind == DocumentNode {
      var parsed := ParsedChildren(n, fold, py2);
      forall i | 0 <= i < |parsed| ensures parsed[i].1 == Empty || WellFormed(parsed[i].1) {
        ParseWellFormed(n.children[i], fold, py2);
      }
      var base := if n.kind == ElementNode then AttrEntries(n.attributes, fold) else [];
      AttrEntriesGood(n.attributes, fold);
      InsertAllGood(base, parsed);
    }
  }

  lemma {:induction false} InsertAllAppend(d: Entries, a: seq<(string, Value)>, b: seq<(string, Value)>)
    ensures InsertAll(d, a + b) == InsertAll(InsertAll(d, a), b)
    decreases |b|
  {
    if b == [] {
      assert a + b == a;
    } else {
      assert (a + b)[..|a + b| - 1] == a + b[..|b| - 1];
      InsertAllAppend(d, a, b[..|b| - 1]);
    }
  }

  /** A child whose value is `{}` (a whitespace-only text node, an element
      with no attributes and no non-empty children) leaves no trace: the
      parent is the same as if the child were absent. */
  lemma EmptyChildDropped(n: Node, i: nat, fold: string -> string, py2: bool)
    requires i < |n.children|
    requires Parse(n.children[i], fold, py2).1 == Empty
    ensures Parse(n.(children := n.children[..i] + n.children[i + 1..]), fold, py2) == Parse(n, fold, py2)
  {
    var m := n.(children := n.children[..i] + n.children[i + 1..]);
    var p, q := ParsedChildren(n, fold, py2), ParsedChildren(m, fold, py2);
    assert q == p[..i] + p[i + 1..] by {
      forall j | 0 <= j < |q| ensures q[j] == (p[..i] + p[i + 1..])[j] {
        if j < i { assert m.children[j] == n.children[j]; }
        else { assert m.children[j] == n.children[j + 1]; }
      }
    }
    var base := if n.kind == ElementNode then AttrEntries(n.attributes, fold) else [];
    assert p == p[..i] + [p[i]] + p[i + 1..];
    InsertAllAppend(base, p[..i] + [p[i]], p[i + 1..]);
    InsertAllAppend(base, p[..i], [p[i]]);
    InsertAllAppend(base, p[..i], p[i + 1..]);
    assert [p[i]][..0] == [];
  }

  /** A whitespace-only text child in particular is dropped. */
  lemma BlankTextDropped(n: Node, i: nat, fold: string -> string, py2: bool)
    requires i < |n.children|
    requires n.children[i].kind == TextNode && IsBlank(n.children[i].data, py2)
    ensures Parse(n.(children := n.children[..i] + n.children[i + 1..]), fold, py2) == Parse(n, fold, py2)
  {
    EmptyChildDropped(n, i, fold, py2);
  }

  /** The non-empty values among `cs` stored under name `k`, in order. */
  function Named(cs: seq<(string, Value)>, k: string): seq<Value>
    decreases |cs|
  {
    if cs == [] then []
    else
      var c := cs[|cs| - 1];
      Named(cs[..|cs| - 1], k) + (if c.0 == k && c.1 != Empty then [c.1] else [])
  }

  /** What a run `vs` of same-named children leaves under their name: no
      key for none, the value itself for one, the list of all of them for
      two or more. */
  function Stored(vs: seq<Value>): Option<Value>
  {
    if vs == [] then None else if |vs| == 1 then Some(vs[0]) else Some(List(vs))
  }

  /** Children sharing a tag accumulate in document order: none gives no
      key, one is stored as a scalar, two or more as the list of all of
      them. `AsList` then recovers the same sequence whether there was one
      child or many (unless the first child's own value already was a list,
      which the source then extends in place). */
  lemma {:induction false} SameTagAccumulates(d: Entries, cs: seq<(string, Value)>, k: string)
    requires !HasKey(d, k)
    requires Named(cs, k) != [] ==> !Named(cs, k)[0].List?
    ensures Get(InsertAll(d, cs), k) == Stored(Named(cs, k))
    ensures Named(cs, k) != [] ==> AsList(Get(InsertAll(d, cs), k).value) == Named(cs, k)
    decreases |cs|
  {
    if cs != [] {
      var init, c := cs[..|cs| - 1], cs[|cs| - 1];
      var vs' := Named(init, k);
      assert Named(cs, k) == vs' + (if c.0 == k && c.1 != Empty then [c.1] else []);
      if vs' != [] {
        assert vs'[0] == Named(cs, k)[0];
      }
      SameTagAccumulates(d, init, k);
      assert InsertAll(d, cs) == Insert(InsertAll(d, init), c);
      if c.0 == k && c.1 != Empty {
        InsertSame(InsertAll(d, init), c, vs');
        assert Named(cs, k) == vs' + [c.1];
      } else {
        InsertOther(InsertAll(d, init), c, k);
        assert Named(cs, k) == vs';
      }
    }
  }

  /** One more non-empty child under the name extends the run. */
  lemma InsertSame(prev: Entries, c: (string, Value), vs: seq<Value>)
    requires c.1 != Empty && Get(prev, c.0) == Stored(vs)
    requires vs != [] ==> !vs[0].List?
    ensures Get(Insert(prev, c), c.0) == Stored(vs + [c.1])
  {
    var r := vs + [c.1];
    if vs == [] {
      assert r == [c.1];
    } else if |vs| == 1 {
      assert r == [vs[0], c.1];
      assert Accumulate(vs[0], c.1) == List(r);
    } else {
      assert Accumulate(List(vs), c.1) == List(r);
    }
  }

  /** A child under another name, or an empty one, leaves the name alone. */
  lemma InsertOther(prev: Entries, c: (string, Value), k: string)
    requires c.0 != k || c.1 == Empty
    ensures Get(Insert(prev, c), k) == Get(prev, k)
  {
  }

  /** Every key `AttrEntries` stores is `"@" + name` of some attribute. */
  lemma {:induction false} AttrKeys(attrs: seq<(string, string)>, fold: string -> string)
    ensures forall k | HasKey(AttrEntries(attrs, fold), k) :: |k| >= 1 && k[0] == '@'
    decreases |attrs|
  {
    if attrs != [] {
      var a := attrs[|attrs| - 1];
      var prev := AttrEntries(attrs[..|attrs| - 1], fold);
      AttrKeys(attrs[..|attrs| - 1], fold);
      forall k | HasKey(AttrEntries(attrs, fold), k) ensures |k| >= 1 && k[0] == '@' {
        if k != "@" + a.0 {
          assert Get(AttrEntries(attrs, fold), k) == Get(prev, k);
        }
      }
    }
  }

  /** For an element: children named `k` (a tag, not an `@` attribute key)
      accumulate as `SameTagAccumulates` states, read on the parsed
      children. */
  lemma SameTagChildren(n: Node, k: string, fold: string -> string, py2: bool)
    requires n.kind == ElementNode || n.kind == DocumentNode
    requires k == [] || k[0] != '@'
    requires var vs := Named(ParsedChildren(n, fold, py2), k); vs != [] ==> !vs[0].List?
    ensures Get(EntriesOf(n, fold, py2), k) == Stored(Named(ParsedChildren(n, fold, py2), k))
  {
    AttrKeys(n.attributes, fold);
    var base := if n.kind == ElementNode then AttrEntries(n.attributes, fold) else [];
    SameTagAccumulates(base, ParsedChildren(n, fold, py2), k);
  }

  /** `InsertAll` keeps the keys it started with, in order, as a prefix. */
  lemma {:induction false} InsertAllKeepsKeys(d: Entries, cs: seq<(string, Value)>)
    ensures |Keys(d)| <= |Keys(InsertAll(d, cs))|
    ensures Keys(InsertAll(d, cs))[..|Keys(d)|] == Keys(d)
    decreases |cs|
  {
    if cs != [] {
      var prev := InsertAll(d, cs[..|cs| - 1]);
      InsertAllKeepsKeys(d, cs[..|cs| - 1]);
      var c := cs[|cs| - 1];
      if c.1 != Empty {
        var ks := Keys(prev);
        if HasKey(prev, c.0) {
          PutKeys(prev, c.0, Accumulate(Get(prev, c.0).value, c.1));
        } else {
          PutKeys(prev, c.0, c.1);
          assert ks[..|Keys(d)|] == (ks + [c.0])[..|Keys(d)|];
        }
      }
    }
  }

  /** `InsertAll` never touches a key no child carries. */
  lemma {:induction false} InsertAllOtherKey(d: Entries, cs: seq<(string, Value)>, k: string)
    requires forall i | 0 <= i < |cs| :: cs[i].0 != k
    ensures Get(InsertAll(d, cs), k) == Get(d, k)
    decreases |cs|
  {
    if cs != [] {
      InsertAllOtherKey(d, cs[..|cs| - 1], k);
    }
  }

  /** With distinct attribute names, `AttrEntries` lists them in order. */
  lemma {:induction false} AttrEntriesInOrder(attrs: seq<(string, string)>, fold: string -> string)
    requires forall i, j | 0 <= i < j < |attrs| :: attrs[i].0 != attrs[j].0
    ensures |AttrEntries(attrs, fold)| == |attrs|
    ensures forall i | 0 <= i < |attrs| :: AttrEntries(attrs, fold)[i] == ("@" + attrs[i].0, Str(fold(attrs[i].1)))
    decreases |attrs|
  {
    if attrs != [] {
      var init, a := attrs[..|attrs| - 1], attrs[|attrs| - 1];
      AttrEntriesInOrder(init, fold);
      var prev := AttrEntries(init, fold);
      var e := ("@" + a.0, Str(fold(a.1)));
      assert AttrEntries(attrs, fold) == Put(prev, e.0, e.1);
      forall i | 0 <= i < |prev| ensures prev[i].0 != e.0 {
        assert init[i] == attrs[i];
        if prev[i].0 == e.0 {
          AtInjective(init[i].0, a.0);
        }
      }
      PutNew(prev, e.0, e.1);
      var r := prev + [e];
      forall i | 0 <= i < |attrs| ensures r[i] == ("@" + attrs[i].0, Str(fold(attrs[i].1))) {
        if i < |init| {
          assert r[i] == prev[i];
          assert init[i] == attrs[i];
        }
      }
    }
  }

  lemma AtInjective(x: string, y: string)
    requires "@" + x == "@" + y
    ensures x == y
  {
    assert x == ("@" + x)[1..];
    assert y == ("@" + y)[1..];
  }

  /** Attributes are stored under `"@" + name`, before any child entry, in
      document order, and an element with attributes never collapses. */
  lemma AttributesComeFirst(n: Node, fold: string -> string, py2: bool)
    requires n.kind == ElementNode
    requires forall i, j | 0 <= i < j < |n.attributes| :: n.attributes[i].0 != n.attributes[j].0
    ensures |n.attributes| <= |EntriesOf(n, fold, py2)|
    ensures forall i | 0 <= i < |n.attributes| :: EntriesOf(n, fold, py2)[i].0 == "@" + n.attributes[i].0
    ensures |n.attributes| > 0 ==> Parse(n, fold, py2).1 == Obj(EntriesOf(n, fold, py2))
  {
    var attrs := n.attributes;
    var base := AttrEntries(attrs, fold);
    var es := InsertAll(base, ParsedChildren(n, fold, py2));
    assert es == EntriesOf(n, fold, py2);
    AttrEntriesInOrder(attrs, fold);
    InsertAllKeepsKeys(base, ParsedChildren(n, fold, py2));
    forall i | 0 <= i < |attrs| ensures es[i].0 == "@" + attrs[i].0 {
      assert Keys(es)[i] == Keys(es)[..|Keys(base)|][i] == Keys(base)[i];
    }
    if |attrs| > 0 {
      assert Keys(es)[0][0] == ("@" + attrs[0].0)[0] == '@';
      assert ["#text"][0][0] == '#';
    }
  }

  /** An attribute keeps its (folded) value unless a child carries the same
      key `"@" + name`. */
  lemma AttributeValue(n: Node, i: nat, fold: string -> string, py2: bool)
    requires n.kind == ElementNode && i < |n.attributes|
    requires forall a, b | 0 <= a < b < |n.attributes| :: n.attributes[a].0 != n.attributes[b].0
    requires forall j | 0 <= j < |n.children| :: n.children[j].name != "@" + n.attributes[i].0
    ensures Get(EntriesOf(n, fold, py2), "@" + n.attributes[i].0) == Some(Str(fold(n.attributes[i].1)))
  {
    var attrs := n.attributes;
    var base := AttrEntries(attrs, fold);
    var parsed := ParsedChildren(n, fold, py2);
    assert EntriesOf(n, fold, py2) == InsertAll(base, parsed);
    forall j | 0 <= j < |parsed| ensures parsed[j].0 != "@" + attrs[i].0 {
      assert parsed[j] == Parse(n.children[j], fold, py2);
    }
    InsertAllOtherKey(base, parsed, "@" + attrs[i].0);
    AttrEntriesInOrder(attrs, fold);
    AttrEntriesGood(attrs, fold);
    GetDistinct(base, i);
  }

  /** An element holding exactly one non-blank text node and no attributes:
      under Python 2 it becomes the text itself; under Python 3
      it stays the dict `{"#text": text}`. */
  lemma TextLeaf(n: Node, fold: string -> string)
    requires n.kind == ElementNode && n.attributes == []
    requires |n.children| == 1 && n.children[0].kind == TextNode && n.children[0].name == "#text"
    requires !IsBlank(n.children[0].data, true)
    ensures Parse(n, fold, true).1 == Str(fold(n.children[0].data))
    ensures Parse(n, fold, false).1 == Obj([("#text", Str(fold(n.children[0].data)))])
  {
    var t := Str(fold(n.children[0].data));
    assert ParsedChildren(n, fold, true) == [("#text", t)];
    assert ParsedChildren(n, fold, false) == [("#text", t)];
    assert InsertAll([], [("#text", t)]) == Insert([], ("#text", t));
    assert Keys([("#text", t)]) == ["#text"];
  }

  /** U+180E alone is whitespace to Python 2's `strip()`, so the text child
      is dropped; Python 3 keeps it as text. */
  lemma VowelSeparatorText(n: Node, fold: string -> string)
    requires n.kind == TextNode && n.data == "\U{180e}"
    ensures Parse(n, fold, true).1 == Empty
    ensures Parse(n, fold, false).1 == Str(fold(n.data))
  {
    assert !IsSpace(n.data[0], false);
  }

}
