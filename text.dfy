/** String helpers with the semantics of the Python built-ins the scripts use:
    `str.strip`, `str.split`, `str.join`, `str.replace`, slicing, `str(int)`
    and `int(str)`. */
module Text {

  import opened Wrappers

  /** `unicode.isspace` / `str.isspace`: the characters `strip()` removes from
      text. Python 2.7 classifies characters by Unicode 5.2, where U+180E
      MONGOLIAN VOWEL SEPARATOR is a space separator; Python 3 (Unicode 6.3
      and later) no longer counts it. */
  predicate IsSpace(c: char, py2: bool)
  {
    c == ' ' || ('\t' <= c <= '\r') || ('\U{1c}' <= c <= '\U{1f}') ||
    c == '\U{85}' || c == '\U{a0}' || c == '\U{1680}' || ('\U{2000}' <= c <= '\U{200a}') ||
    c == '\U{2028}' || c == '\U{2029}' || c == '\U{202f}' || c == '\U{205f}' || c == '\U{3000}' ||
    (py2 && c == '\U{180e}')
  }

  /** Python 2 byte-string whitespace: space, tab, LF, VT, FF, CR. */
  predicate IsAsciiSpace(c: char)
  {
    c == ' ' || ('\t' <= c <= '\r')
  }

  /** `s.strip() == ""` on text: `s` holds whitespace only. */
  predicate IsBlank(s: string, py2: bool)
  {
    forall i | 0 <= i < |s| :: IsSpace(s[i], py2)
  }

  predicate AllAsciiSpace(s: string)
  {
    forall i | 0 <= i < |s| :: IsAsciiSpace(s[i])
  }

  function TrimLeft(s: string): (r: string)
    ensures |r| <= |s| && r == s[|s| - |r|..]
    ensures AllAsciiSpace(s[..|s| - |r|])
    ensures r == [] || !IsAsciiSpace(r[0])
  {
    if s == [] || !IsAsciiSpace(s[0]) then s else TrimLeft(s[1..])
  }

  function TrimRight(s: string): (r: string)
    ensures |r| <= |s| && r == s[..|r|]
    ensures AllAsciiSpace(s[|r|..])
    ensures r == [] || !IsAsciiSpace(r[|r| - 1])
  {
    if s == [] || !IsAsciiSpace(s[|s| - 1]) then s else TrimRight(s[..|s| - 1])
  }

  /** Python 2 `str.strip()` on a byte string. */
  function Strip(s: string): string
  {
    TrimRight(TrimLeft(s))
  }

  /** Python `sep.join(parts)`. */
  function Join(sep: string, parts: seq<string>): string
  {
    if parts == [] then ""
    else if |parts| == 1 then parts[0]
    else Join(sep, parts[..|parts| - 1]) + sep + parts[|parts| - 1]
  }

  /** `s[:n]` for `n >= 0`. */
  function Take<T>(s: seq<T>, n: nat): (r: seq<T>)
    ensures |r| == if |s| < n then |s| else n
    ensures r == s[..|r|]
  {
    if |s| <= n then s else s[..n]
  }

  /** `s[n:]` for `n >= 0`. */
  function Drop<T>(s: seq<T>, n: nat): (r: seq<T>)
    ensures |r| == if |s| < n then 0 else |s| - n
    ensures r == s[|s| - |r|..]
  {
    if |s| <= n then [] else s[n..]
  }

  /** Python `s.split(sep)` for a one-character separator. */
  function Split(s: string, sep: char): (r: seq<string>)
    ensures |r| >= 1
    ensures Join([sep], r) == s
    ensures forall i | 0 <= i < |r| :: sep !in r[i]
  {
    if s == [] then [""]
    else
      var rest := Split(s[1..], sep);
      if s[0] == sep then
        JoinCons([sep], "", rest);
        [""] + rest
      else
        JoinHead([sep], s[0], rest);
        [[s[0]] + rest[0]] + rest[1..]
  }

  lemma {:induction false} JoinCons(sep: string, p: string, rest: seq<string>)
    requires |rest| >= 1
    ensures Join(sep, [p] + rest) == p + sep + Join(sep, rest)
    decreases |rest|
  {
    if |rest| == 1 {
      assert [p] + rest == [p, rest[0]];
    } else {
      var init := rest[..|rest| - 1];
      JoinCons(sep, p, init);
      assert ([p] + rest)[..|rest|] == [p] + init;
      assert rest[..|rest| - 1] == init;
    }
  }

  lemma JoinHead(sep: string, c: char, rest: seq<string>)
    requires |rest| >= 1
    ensures Join(sep, [[c] + rest[0]] + rest[1..]) == [c] + Join(sep, rest)
  {
    if |rest| == 1 {
    } else {
      JoinCons(sep, rest[0], rest[1..]);
      JoinCons(sep, [c] + rest[0], rest[1..]);
      assert [rest[0]] + rest[1..] == rest;
    }
  }

  /** A string without the separator splits into itself alone. */
  lemma {:induction false} SplitNone(s: string, sep: char)
    requires sep !in s
    ensures Split(s, sep) == [s]
    decreases |s|
  {
    if s != [] {
      SplitNone(s[1..], sep);
      assert [s[0]] + s[1..] == s;
    }
  }

  /** `(a + sep + b).split(sep) == [a, b]` when neither part holds `sep`. */
  lemma {:induction false} SplitPair(a: string, b: string, sep: char)
    requires sep !in a && sep !in b
    ensures Split(a + [sep] + b, sep) == [a, b]
    decreases |a|
  {
    var s := a + [sep] + b;
    if a == [] {
      assert s[1..] == b;
      SplitNone(b, sep);
    } else {
      assert s[0] == a[0] && s[1..] == a[1..] + [sep] + b;
      SplitPair(a[1..], b, sep);
      assert [a[0]] + a[1..] == a;
    }
  }

  /** Python `s.replace(pat, rep)`: every non-overlapping occurrence of
      `old`, scanning from the left, is replaced by `new`. */
  function Replace(s: string, pat: string, rep: string): string
    requires pat != []
    decreases |s|
  {
    if |s| < |pat| then s
    else if s[..|pat|] == pat then rep + Replace(s[|pat|..], pat, rep)
    else [s[0]] + Replace(s[1..], pat, rep)
  }

  /** A prefix in which `old` cannot begin is copied unchanged. */
  lemma {:induction false} ReplaceSkip(x: string, y: string, pat: string, rep: string)
    requires pat != [] && pat[0] !in x
    ensures Replace(x + y, pat, rep) == x + Replace(y, pat, rep)
    decreases |x|
  {
    if x != [] {
      var s := x + y;
      assert s[0] == x[0];
      if |s| >= |pat| {
        assert s[..|pat|][0] != pat[0];
        assert s[1..] == x[1..] + y;
        ReplaceSkip(x[1..], y, pat, rep);
        calc {
          Replace(s, pat, rep);
          [s[0]] + Replace(s[1..], pat, rep);
          [x[0]] + (x[1..] + Replace(y, pat, rep));
          ([x[0]] + x[1..]) + Replace(y, pat, rep);
          { assert [x[0]] + x[1..] == x; }
          x + Replace(y, pat, rep);
        }
      } else {
        assert Replace(y, pat, rep) == y;
      }
    } else {
      assert x + y == y;
    }
  }

  /** With no character that could begin `old`, nothing is replaced. */
  lemma {:induction false} ReplaceNone(s: string, pat: string, rep: string)
    requires pat != [] && pat[0] !in s
    ensures Replace(s, pat, rep) == s
    decreases |s|
  {
    if |s| >= |pat| {
      assert s[0] != pat[0];
      ReplaceNone(s[1..], pat, rep);
    }
  }

  /** The occurrence at the head of the string is replaced. */
  lemma ReplaceHead(y: string, pat: string, rep: string)
    requires pat != []
    ensures Replace(pat + y, pat, rep) == rep + Replace(y, pat, rep)
  {
    assert (pat + y)[..|pat|] == pat;
    assert (pat + y)[|pat|..] == y;
  }

  /** A prefix that starts with the first character of `old` but differs from
      it at the second, and holds that first character nowhere else, is
      copied unchanged. */
  lemma ReplaceSkipLeading(x: string, y: string, pat: string, rep: string)
    requires |pat| >= 2 && |x| >= 2 && x[0] == pat[0] && x[1] != pat[1] && pat[0] !in x[1..]
    ensures Replace(x + y, pat, rep) == x + Replace(y, pat, rep)
  {
    var s := x + y;
    assert s[0] == x[0] && s[1..] == x[1..] + y;
    if |s| >= |pat| {
      assert s[..|pat|][1] != pat[1];
    }
    ReplaceSkip(x[1..], y, pat, rep);
    assert [x[0]] + x[1..] == x;
  }

  /** One character that could begin `old` but is followed by a character
      that cannot continue it is copied unchanged. */
  lemma ReplaceSkipChar(c: char, y: string, pat: string, rep: string)
    requires |pat| >= 2 && |y| >= 1 && y[0] != pat[1]
    ensures Replace([c] + y, pat, rep) == [c] + Replace(y, pat, rep)
  {
    var s := [c] + y;
    assert s[1..] == y;
    if |s| >= |pat| {
      assert s[..|pat|][1] == y[0];
    }
  }

  /** The parts of a join around a separator that none of them holds are
      recovered by splitting. */
  lemma {:induction false} SplitJoin(parts: seq<string>, sep: char)
    requires |parts| >= 1 && forall i | 0 <= i < |parts| :: sep !in parts[i]
    ensures Split(Join([sep], parts), sep) == parts
    decreases |parts|
  {
    if |parts| == 1 {
      SplitNone(parts[0], sep);
    } else {
      var init := parts[..|parts| - 1];
      var last := parts[|parts| - 1];
      SplitJoin(init, sep);
      SplitAppend(Join([sep], init), last, sep);
      assert init + [last] == parts;
    }
  }

  /** Splitting `a + sep + b` where `b` holds no separator appends `b` to the
      parts of `a`. */
  lemma {:induction false} SplitAppend(a: string, b: string, sep: char)
    requires sep !in b
    ensures Split(a + [sep] + b, sep) == Split(a, sep) + [b]
    decreases |a|
  {
    var s := a + [sep] + b;
    if a == [] {
      assert s[1..] == b;
      SplitNone(b, sep);
    } else {
      assert s[0] == a[0] && s[1..] == a[1..] + [sep] + b;
      SplitAppend(a[1..], b, sep);
      var ra := Split(a[1..], sep);
      assert Split(s[1..], sep) == ra + [b];
      if a[0] != sep {
        assert (ra + [b])[0] == ra[0];
        assert (ra + [b])[1..] == ra[1..] + [b];
      }
    }
  }

  predicate IsDigit(c: char)
  {
    '0' <= c <= '9'
  }

  predicate AllDigits(s: string)
  {
    forall i | 0 <= i < |s| :: IsDigit(s[i])
  }

  function DigitValue(c: char): nat
    requires IsDigit(c)
  {
    (c as int) - ('0' as int)
  }

  /** The number written by a string of decimal digits. */
  function DigitsValue(s: string): nat
    requires AllDigits(s)
  {
    if s == [] then 0 else DigitsValue(s[..|s| - 1]) * 10 + DigitValue(s[|s| - 1])
  }

  /** A digit string for `n` without leading zeros (`str(n)` for `n >= 0`). */
  function NatToString(n: nat): (r: string)
    ensures |r| >= 1 && AllDigits(r) && DigitsValue(r) == n
    ensures |r| > 1 ==> r[0] != '0'
  {
    var last := [('0' as int + n % 10) as char];
    if n < 10 then last
    else
      var init := NatToString(n / 10);
      assert (init + last)[..|init|] == init;
      init + last
  }

  /** Python `str(n)` for an integer. */
  function IntToString(n: int): string
  {
    if n < 0 then "-" + NatToString(-n) else NatToString(n)
  }

  function Pow10(w: nat): nat
  {
    if w == 0 then 1 else 10 * Pow10(w - 1)
  }

  /** `"%0*d" % (w, n)` for `0 <= n < 10^w`: exactly `w` decimal digits,
      left-padded with zeros. */
  function Digits(n: nat, w: nat): (r: string)
    ensures |r| == w
  {
    if w == 0 then "" else Digits(n / 10, w - 1) + [('0' as int + n % 10) as char]
  }

  /** The digits `Digits` writes read back as the number. */
  lemma {:induction false} DigitsValueOf(n: nat, w: nat)
    requires n < Pow10(w)
    ensures AllDigits(Digits(n, w)) && DigitsValue(Digits(n, w)) == n
  {
    if w > 0 {
      var r := Digits(n, w);
      assert Pow10(w) == 10 * Pow10(w - 1);
      DigitsValueOf(n / 10, w - 1);
      assert r[..w - 1] == Digits(n / 10, w - 1);
    }
  }

  /** Python 2 `int(s)` on a byte string: surrounding whitespace, an optional
      sign, more whitespace after the sign (the C parser skips it again once
      the sign is read), and at least one decimal digit; anything else
      raises ValueError (`None`). */
  function ParseInt(s: string): Option<int>
  {
    ParseSigned(Strip(s))
  }

  /** The digits after a sign, past the whitespace that may follow it. */
  predicate SignedDigits(t: string)
  {
    |t| >= 1 && (t[0] == '+' || t[0] == '-') && |TrimLeft(t[1..])| >= 1 && AllDigits(TrimLeft(t[1..]))
  }

  /** `int` of an already stripped string. */
  function ParseSigned(t: string): (r: Option<int>)
    ensures r.Some? <==> (|t| >= 1 && AllDigits(t)) || SignedDigits(t)
    ensures r.Some? && AllDigits(t) ==> r.value == DigitsValue(t)
    ensures r.Some? && SignedDigits(t) && t[0] == '+' ==> r.value == DigitsValue(TrimLeft(t[1..]))
    ensures r.Some? && SignedDigits(t) && t[0] == '-' ==> r.value == -(DigitsValue(TrimLeft(t[1..])) as int)
  {
    if |t| >= 1 && AllDigits(t) then Some(DigitsValue(t))
    else if SignedDigits(t) && t[0] == '+' then Some(DigitsValue(TrimLeft(t[1..])))
    else if SignedDigits(t) then Some(0 - DigitsValue(TrimLeft(t[1..])))
    else None
  }

  /** Leading ASCII whitespace in front of a digit string is skipped. */
  lemma {:induction false} TrimSpaces(ws: string, ds: string)
    requires AllAsciiSpace(ws) && |ds| >= 1 && AllDigits(ds)
    ensures TrimLeft(ws + ds) == ds
    decreases |ws|
  {
    var s := ws + ds;
    if ws == [] {
      assert s == ds;
      assert !IsAsciiSpace(ds[0]);
    } else {
      assert s[0] == ws[0] && IsAsciiSpace(ws[0]);
      assert TrimLeft(s) == TrimLeft(s[1..]);
      assert s[1..] == ws[1..] + ds;
      TrimSpaces(ws[1..], ds);
    }
  }

  /** A string that starts with a sign and ends with a digit is stripped
      already. */
  lemma StripSigned(t: string)
    requires |t| >= 2 && (t[0] == '+' || t[0] == '-') && IsDigit(t[|t| - 1])
    ensures Strip(t) == t
  {
    assert TrimLeft(t) == t;
    assert TrimRight(t) == t;
  }

  /** A sign, then whitespace, then digits: `int` reads the signed value `n`
      of the digits, as `int("- 5") == -5` in Python 2. */
  lemma SignSpaceDigits(sign: char, ws: string, ds: string, n: int)
    requires sign == '+' || sign == '-'
    requires AllAsciiSpace(ws) && |ds| >= 1 && AllDigits(ds)
    requires n == if sign == '-' then -(DigitsValue(ds) as int) else DigitsValue(ds)
    ensures ParseInt([sign] + (ws + ds)) == Some(n)
  {
    var t := [sign] + (ws + ds);
    SignedStripped(sign, ws, ds, t);
    ParseStripped(t, n);
  }

  /** A sign, whitespace and digits are left alone by `strip` and read by
      the signed parse. */
  lemma SignedStripped(sign: char, ws: string, ds: string, t: string)
    requires sign == '+' || sign == '-'
    requires AllAsciiSpace(ws) && |ds| >= 1 && AllDigits(ds)
    requires t == [sign] + (ws + ds)
    ensures Strip(t) == t
    ensures ParseSigned(t) == Some(if sign == '-' then -(DigitsValue(ds) as int) else DigitsValue(ds))
  {
    assert t[0] == sign && t[1..] == ws + ds;
    assert t[|t| - 1] == ds[|ds| - 1];
    StripSigned(t);
    TrimSpaces(ws, ds);
    SignedRead(t, ds);
  }

  /** On a string that stripping leaves alone, `int` is the signed parse. */
  lemma ParseStripped(t: string, n: int)
    requires Strip(t) == t && ParseSigned(t) == Some(n)
    ensures ParseInt(t) == Some(n)
  {
  }

  /** `int` of a stripped sign whose digits, past whitespace, are `ds`. */
  lemma SignedRead(t: string, ds: string)
    requires |t| >= 1 && (t[0] == '+' || t[0] == '-') && TrimLeft(t[1..]) == ds && |ds| >= 1 && AllDigits(ds)
    ensures ParseSigned(t) == Some(if t[0] == '-' then -(DigitsValue(ds) as int) else DigitsValue(ds))
  {
    assert !AllDigits(t) by { assert !IsDigit(t[0]); }
    assert SignedDigits(t);
    var r := ParseSigned(t);
    assert r.Some?;
    if t[0] == '-' {
      assert r.value == -(DigitsValue(ds) as int);
    } else {
      assert r.value == DigitsValue(ds);
    }
  }

  /** A space between the sign and the digits is accepted: `int("- 5")` is -5. */
  lemma SpacedMinusFive()
    ensures ParseInt("- 5") == Some(-5)
  {
    assert "- 5" == ['-'] + (" " + "5");
    assert DigitsValue("5") == 5 by { assert "5"[..0] == ""; }
    SignSpaceDigits('-', " ", "5", -5);
  }

  /** `int(s)` of a plain digit string is its value. */
  lemma ParseDigits(s: string)
    requires |s| >= 1 && AllDigits(s)
    ensures ParseInt(s) == Some(DigitsValue(s))
  {
    assert !IsAsciiSpace(s[0]);
    assert TrimLeft(s) == s;
    assert !IsAsciiSpace(s[|s| - 1]);
    assert TrimRight(s) == s;
  }

  lemma ParseNumeral(s: string, n: nat)
    requires |s| >= 1 && AllDigits(s) && DigitsValue(s) == n
    ensures ParseInt(s) == Some(n)
  {
    ParseDigits(s);
  }

}
